/** The client's stock of object ids, requested in advance so that one is at hand when the
    application wants it. */
module ObjectQueue {

  const UNUSED := -1          // unused slot magic number
  const MAX_REQ := 100        // limit of the request counter

  /** The first free place, or one past the end. */
  function FirstUnused(q: seq<int>): (i: nat)
    ensures i <= |q| && (i < |q| ==> q[i] == UNUSED) && forall j :: 0 <= j < i ==> q[j] != UNUSED
  {
    if q == [] || q[0] == UNUSED then 0 else 1 + FirstUnused(q[1..])
  }

  /** The first id at hand, or one past the end. */
  function FirstUsed(q: seq<int>): (i: nat)
    ensures i <= |q| && (i < |q| ==> q[i] != UNUSED) && forall j :: 0 <= j < i ==> q[j] == UNUSED
  {
    if q == [] || q[0] != UNUSED then 0 else 1 + FirstUsed(q[1..])
  }

  /** The stock with one more id, in the first free place if there is one. */
  function Stocked(q: seq<int>, oid: int): seq<int> {
    if FirstUnused(q) < |q| then q[FirstUnused(q) := oid] else q + [oid]
  }

  /** The ids at hand, with their multiplicities. */
  function AtHand(q: seq<int>): multiset<int> { multiset(q)[UNUSED := 0] }

  lemma StockedHasOneMore(q: seq<int>, oid: int)
    requires oid != UNUSED
    ensures AtHand(Stocked(q, oid)) == AtHand(q) + multiset{oid}
  {
  }

  lemma GivenHasOneLess(q: seq<int>)
    requires FirstUsed(q) < |q|
    ensures AtHand(q[FirstUsed(q) := UNUSED]) == AtHand(q) - multiset{q[FirstUsed(q)]}
    ensures q[FirstUsed(q)] in AtHand(q)
  {
    var i := FirstUsed(q);
    assert q[i] in multiset(q);
  }

  class Queue {
    var queue: array<int>
    var requested: int          // counter of how many additional objects have been requested

    constructor ()
      ensures fresh(queue) && queue[..] == [UNUSED] && requested == 0
    {
      queue := new int[1](_ => UNUSED);
      requested := 0;
    }

    /** Initializes the object queue: one free place, for which an id is requested at once. */
    static method Init() returns (q: Queue, sent: nat)
      ensures fresh(q) && fresh(q.queue) && q.queue[..] == [UNUSED] && q.requested == 0 && sent == 1
    {
      q := new Queue();
      sent := q.Fill();
    }

    /** Checks the queue's empty places and requests an id for each. */
    method Fill() returns (sent: nat)
      ensures sent == multiset(queue[..])[UNUSED]
    {
      sent := 0;
      var i := 0;
      while i < queue.Length
        invariant 0 <= i <= queue.Length && sent == multiset(queue[..i])[UNUSED]
      {
        assert queue[..i + 1] == queue[..i] + [queue[i]];
        if queue[i] == UNUSED { sent := sent + 1; }
        i := i + 1;
      }
      assert queue[..i] == queue[..];
    }

    /** An id came in: it is put into stock. */
    method NewObject(oid: int)
      modifies this, queue
      ensures queue[..] == Stocked(old(queue[..]), oid) && requested == old(requested) - 1
      ensures queue == old(queue) || fresh(queue)
    {
      var i := 0;
      while i < queue.Length
        invariant 0 <= i <= queue.Length && forall j :: 0 <= j < i ==> queue[j] != UNUSED
        invariant unchanged(this) && unchanged(queue)
      {
        if queue[i] == UNUSED {
          queue[i] := oid;
          requested := requested - 1;
          return;
        }
        i := i + 1;
      }
      var q := queue[..];
      queue := new int[|q| + 1](j requires 0 <= j <= |q| => if j < |q| then q[j] else oid);
      requested := requested - 1;
      assert queue[..] == q + [oid];
    }

    /** One round of the loop in which an object is wanted: an id at hand is given out and
        another requested in its place; with none at hand one more is requested, up to the
        limit. */
    method WantOnce() returns (oid: int, sent: nat)
      modifies this, queue
      ensures queue == old(queue)
      ensures var q := old(queue[..]);
              if FirstUsed(q) < |q|
              then oid == q[FirstUsed(q)] && queue[..] == q[FirstUsed(q) := UNUSED] && sent == 1
                   && requested == old(requested)
              else oid == UNUSED && queue[..] == q && sent == (if old(requested) < MAX_REQ then 1 else 0)
                   && requested == old(requested) + sent
    {
      var i := 0;
      while i < queue.Length
        invariant 0 <= i <= queue.Length && forall j :: 0 <= j < i ==> queue[j] == UNUSED
        invariant unchanged(this) && unchanged(queue)
      {
        if queue[i] != UNUSED {
          oid := queue[i];
          queue[i] := UNUSED;
          return oid, 1;
        }
        i := i + 1;
      }
      oid, sent := UNUSED, 0;
      if requested < MAX_REQ {
        sent := 1;
        requested := requested + 1;
      }
    }
  }
}
