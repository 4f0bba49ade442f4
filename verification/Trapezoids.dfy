/** The records shared by the trapezoidation and the monotone splitter. */
module Trapezoids {
  import opened Plane

  datatype Segment = Segment(v0: Point, v1: Point, isInserted: bool, root0: int, root1: int, next: int, prev: int)

  datatype TrapState = Valid | Invalid

  datatype Trap = Trap(lseg: int, rseg: int, hi: Point, lo: Point,
                       u0: int, u1: int, d0: int, d1: int, sink: int, state: TrapState)

  function TrapAt(tr: seq<Trap>, k: int): Trap {
    if 0 <= k < |tr| then tr[k] else Trap(-1, -1, ORIGIN, ORIGIN, -1, -1, -1, -1, 0, Invalid)
  }

  function SegmentAt(seg: seq<Segment>, k: int): Segment {
    if 0 <= k < |seg| then seg[k] else Segment(ORIGIN, ORIGIN, false, 0, 0, 0, 0)
  }
}
