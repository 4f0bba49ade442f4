/** The connections of a mesh network between two output blocks: announced ones are put
    into the table, and at the end of a block those not announced in it are swept out. */
module Mesh {
  import opened Options
  import opened Chains
  import opened HashTable
  import opened Hash
  import opened NodeIds

  /** A connection: the two addresses, the larger first, and what is known about it. */
  class Con {
    const address0: NodeId
    const address1: NodeId
    var objId: int
    var etx1: real
    var etx2: real
    var isOld: bool

    constructor (address0: NodeId, address1: NodeId, objId: int)
      ensures this.address0 == address0 && this.address1 == address1 && this.objId == objId
      ensures FactsOf(this) == NewFacts(objId)
    {
      this.address0, this.address1, this.objId := address0, address1, objId;
      etx1, etx2, isOld := 1.0, 1.0, false;
    }
  }

  function ConKey(c: Con): Pair { Pair(c.address0, c.address1) }

  function ConChoose(p: Pair, size: int): int { if size > 0 then LongChoose(p, size) else 0 }

  /** A line of the input: node from reports node to, at that cost. */
  datatype Announcement = Announcement(from: NodeId, to: NodeId, etx: real)

  function Pairs(block: seq<Announcement>): set<Pair> {
    set k | 0 <= k < |block| :: PairOf(block[k].from, block[k].to)
  }

  /** What is known of a connection: its 3d object, and the costs announced by the larger and
      by the smaller address. */
  datatype Facts = Facts(objId: int, etx1: real, etx2: real)

  ghost function FactsOf(c: Con): Facts
    reads c
  {
    Facts(c.objId, c.etx1, c.etx2)
  }

  ghost function FactsIn(content: map<Pair, Con>): map<Pair, Facts>
    reads content.Values
  {
    map q | q in content :: FactsOf(content[q])
  }

  /** A connection nothing was announced of yet. */
  function NewFacts(objId: int): Facts { Facts(objId, 1.0, 1.0) }

  /** The facts with the cost on the announcing node's side, and an object if there was none. */
  function NotedFor(f: Facts, q: Pair, from: NodeId, etx: real, otherId: int): Facts {
    var g := if f.objId == -1 then f.(objId := otherId) else f;
    if q.first == from then g.(etx1 := etx) else g.(etx2 := etx)
  }

  /** The length of a table with that many elements, after it was looked at. */
  function Doubled(elements: int, length: int): int { if elements * 4 > length then length * 2 else length }

  /** All facts after one announcement. */
  function Noted(m: map<Pair, Facts>, a: Announcement, newId: int, otherId: int): map<Pair, Facts> {
    var q := PairOf(a.from, a.to);
    m[q := NotedFor(if q in m then m[q] else NewFacts(newId), q, a.from, a.etx, otherId)]
  }

  /** All facts after a block. */
  function NotedAll(m: map<Pair, Facts>, block: seq<Announcement>, ids: nat -> int): map<Pair, Facts> {
    if block == [] then m
    else
      var k: nat := |block| - 1;
      Noted(NotedAll(m, block[..k], ids), block[k], ids(2 * k), ids(2 * k + 1))
  }

  lemma NotedNext(m: map<Pair, Facts>, block: seq<Announcement>, k: nat, ids: nat -> int)
    requires k < |block|
    ensures NotedAll(m, block[..k + 1], ids) == Noted(NotedAll(m, block[..k], ids), block[k], ids(2 * k), ids(2 * k + 1))
  {
    assert block[..k + 1][..k] == block[..k];
  }

  /** Announcement number k is about q, from its first address or from the other. */
  predicate Tells(block: seq<Announcement>, k: nat, q: Pair, first: bool)
    requires k < |block|
  {
    PairOf(block[k].from, block[k].to) == q && (block[k].from == q.first) == first
  }

  ghost predicate TellsLast(block: seq<Announcement>, k: nat, q: Pair, first: bool)
    requires k < |block|
  {
    Tells(block, k, q, first) && forall j :: k < j < |block| ==> !Tells(block, j, q, first)
  }

  ghost predicate Silent(block: seq<Announcement>, q: Pair, first: bool) {
    forall k :: 0 <= k < |block| ==> !Tells(block, k, q, first)
  }

  /** A cost after a block: the last one that side announced, or what it was before. */
  ghost predicate LastAnnounced(block: seq<Announcement>, q: Pair, first: bool, before: real, cost: real) {
    && (Silent(block, q, first) ==> cost == before)
    && (forall k :: 0 <= k < |block| && TellsLast(block, k, q, first) ==> cost == block[k].etx)
  }

  lemma LastAnnouncedStep(init: seq<Announcement>, a: Announcement, q: Pair, first: bool, before: real, cost: real)
    requires LastAnnounced(init, q, first, before, cost)
    ensures LastAnnounced(init + [a], q, first, before, if Tells([a], 0, q, first) then a.etx else cost)
  {
    var n, block := |init|, init + [a];
    assert forall k :: 0 <= k < n ==> Tells(init, k, q, first) == Tells(block, k, q, first);
    assert Tells(block, n, q, first) == Tells([a], 0, q, first);
    if !Tells(block, n, q, first) {
      assert Silent(block, q, first) ==> Silent(init, q, first);
      forall k | 0 <= k < |block| && TellsLast(block, k, q, first) ensures cost == block[k].etx {
        assert TellsLast(init, k, q, first);
      }
    }
  }

  /** What is known after a block of pair q, as told by `was`: both costs are the last ones
      announced. */
  ghost predicate CostsAreLast(block: seq<Announcement>, q: Pair, was: Facts, now: Facts) {
    LastAnnounced(block, q, true, was.etx1, now.etx1) && LastAnnounced(block, q, false, was.etx2, now.etx2)
  }

  lemma CostsStep(init: seq<Announcement>, a: Announcement, q: Pair, was: Facts, now: Facts, otherId: int)
    requires CostsAreLast(init, q, was, now)
    ensures CostsAreLast(init + [a], q, was,
                         if PairOf(a.from, a.to) == q then NotedFor(now, q, a.from, a.etx, otherId) else now)
  {
    LastAnnouncedStep(init, a, q, true, was.etx1, now.etx1);
    LastAnnouncedStep(init, a, q, false, was.etx2, now.etx2);
  }

  function FactsAt(m: map<Pair, Facts>, q: Pair): Facts { if q in m then m[q] else NewFacts(0) }

  /** After a block every announced pair is known, with the last cost either side announced;
      a pair announced for the first time has the cost 1.0 on a side that was silent. Pairs
      not announced keep theirs. */
  lemma {:induction false} NotedAreLast(m: map<Pair, Facts>, block: seq<Announcement>, ids: nat -> int, q: Pair)
    ensures var n := NotedAll(m, block, ids);
            && (q in n <==> q in m || q in Pairs(block))
            && CostsAreLast(block, q, FactsAt(m, q), FactsAt(n, q))
  {
    if block == [] {
      assert Pairs(block) == {};
    } else {
      var k: nat := |block| - 1;
      var init, a := block[..k], block[k];
      assert block == init + [a] && block[..k + 1] == block;
      NotedAreLast(m, init, ids, q);
      PairsStep(block, k);
      NotedNext(m, block, k, ids);
      NotedStep(NotedAll(m, init, ids), init, a, ids(2 * k), ids(2 * k + 1), q, FactsAt(m, q));
    }
  }

  lemma NotedStep(n: map<Pair, Facts>, init: seq<Announcement>, a: Announcement, newId: int, otherId: int, q: Pair,
                  was: Facts)
    requires CostsAreLast(init, q, was, FactsAt(n, q))
    ensures CostsAreLast(init + [a], q, was, FactsAt(Noted(n, a, newId, otherId), q))
    ensures q in Noted(n, a, newId, otherId) <==> q in n || q == PairOf(a.from, a.to)
  {
    CostsStep(init, a, q, was, FactsAt(n, q), otherId);
    NotedAt(n, a, newId, otherId, q);
  }

  lemma NotedIs(m: map<Pair, Facts>, n: map<Pair, Facts>, q: Pair, f: Facts, a: Announcement, newId: int, otherId: int)
    requires q == PairOf(a.from, a.to) && f == if q in m then m[q] else NewFacts(newId)
    requires n == m[q := f][q := NotedFor(f, q, a.from, a.etx, otherId)]
    ensures n == Noted(m, a, newId, otherId)
  {
  }

  /** The costs do not depend on the object ids. */
  lemma NotedAt(n: map<Pair, Facts>, a: Announcement, newId: int, otherId: int, q: Pair)
    ensures var r, s := FactsAt(Noted(n, a, newId, otherId), q),
                        if PairOf(a.from, a.to) == q then NotedFor(FactsAt(n, q), q, a.from, a.etx, otherId)
                        else FactsAt(n, q);
            r.etx1 == s.etx1 && r.etx2 == s.etx2
    ensures q in Noted(n, a, newId, otherId) <==> q in n || q == PairOf(a.from, a.to)
  {
  }

  ghost predicate FreshIn(content: map<Pair, Con>, heard: set<Pair>)
    reads content.Values
  {
    && (forall q :: q in heard ==> q in content)
    && (forall q :: q in content ==> (!content[q].isOld <==> q in heard))
  }

  /** Flags are right but for that of the connection of q. */
  ghost predicate FreshBut(content: map<Pair, Con>, heard: set<Pair>, q: Pair, con: Con)
    reads content.Values
  {
    && q in content && content[q] == con
    && (forall p :: p in heard ==> p in content)
    && (forall p :: p in content && p != q ==> content[p] != con && (!content[p].isOld <==> p in heard))
  }

  lemma FreshButOne(before: map<Pair, Con>, content: map<Pair, Con>, heard: set<Pair>, q: Pair, con: Con)
    requires FreshIn(before, heard) && content == before[q := con]
    requires forall p :: p in content && p != q ==> content[p] != con
    ensures FreshBut(content, heard, q, con)
  {
  }

  method FlagHeard(con: Con, ghost content: map<Pair, Con>, ghost heard: set<Pair>, ghost q: Pair)
    requires FreshBut(content, heard, q, con)
    modifies con
    ensures FreshIn(content, heard + {q}) && FactsOf(con) == old(FactsOf(con))
  {
    con.isOld := false;
  }

  class Connections {
    var conHash: Table<Con, Pair>

    ghost predicate Valid()
      reads this, conHash, conHash.table
    {
      conHash.Valid() && conHash.key == ConKey && conHash.hash == ConChoose && AllFiled()
    }

    /** Every connection is filed under its own pair. */
    ghost predicate AllFiled()
      reads this, conHash
    {
      forall q :: q in conHash.content ==> ConKey(conHash.content[q]) == q
    }

    /** The connections heard of since the last sweep. */
    ghost predicate Fresh(heard: set<Pair>)
      reads this, conHash, conHash.content.Values
    {
      FreshIn(conHash.content, heard)
    }

    constructor ()
      ensures Valid() && fresh(conHash) && fresh(conHash.table) && conHash.content == map[] && Fresh({})
    {
      conHash := new Table(1600, ConKey, ConChoose);
    }

    /** What is known of all connections in the table. */
    ghost function Known(): map<Pair, Facts>
      reads this, conHash, conHash.content.Values
    {
      FactsIn(conHash.content)
    }

    /** Find the connection of the two nodes, or enter a new one. */
    method Lookup(q: Pair, newId: int) returns (con: Con)
      requires Valid()
      modifies conHash, conHash.table
      ensures Valid() && conHash == old(conHash) && ConKey(con) == q && q in conHash.content && conHash.content[q] == con
      ensures if q in old(conHash.content) then con == old(conHash.content)[q] else fresh(con)
      ensures conHash.content == old(conHash.content)[q := con]
      ensures Known() == old(Known())[q := FactsOf(con)]
      ensures FactsOf(con) == if q in old(Known()) then old(Known())[q] else NewFacts(newId)
      ensures conHash.table == old(conHash.table)
      ensures conHash.elements == old(conHash.elements) + if q in old(conHash.content) then 0 else 1
    {
      var found := conHash.Find(q);
      if found.None? { con := Enter(q, newId); } else { con := found.value; }
    }

    method Enter(q: Pair, newId: int) returns (con: Con)
      requires Valid() && q !in conHash.content
      modifies conHash, conHash.table
      ensures Valid() && conHash == old(conHash) && ConKey(con) == q && fresh(con)
      ensures conHash.content == old(conHash.content)[q := con]
      ensures Known() == old(Known())[q := NewFacts(newId)] && FactsOf(con) == NewFacts(newId)
      ensures conHash.table == old(conHash.table) && conHash.elements == old(conHash.elements) + 1
    {
      con := new Con(q.first, q.second, newId);
      var r := conHash.Add(con);
    }

    /** The table is doubled when more than a quarter as many elements as entries. */
    method Grow()
      requires Valid()
      modifies this
      ensures Valid() && conHash.content == old(conHash.content)
      ensures conHash == old(conHash) || (fresh(conHash) && fresh(conHash.table))
      ensures conHash.table.Length == Doubled(old(conHash.elements), old(conHash.table.Length))
    {
      if conHash.elements * 4 > conHash.table.Length {
        var swaphash := conHash.Resize(conHash.table.Length * 2);
        conHash := swaphash;
      }
    }

    method NoteCost(con: Con, id1: NodeId, etx: real, otherId: int,
                    ghost content: map<Pair, Con>, ghost heard: set<Pair>, ghost q: Pair)
      requires FreshBut(content, heard, q, con)
      modifies con
      ensures FreshBut(content, heard, q, con)
      ensures FactsOf(con) == NotedFor(old(FactsOf(con)), ConKey(con), id1, etx, otherId)
    {
      if con.objId == -1 { con.objId := otherId; }
      IdCompIsAntisymmetric(con.address0, id1);
      if IdComp(con.address0, id1) == 0 { con.etx1 := etx; } else { con.etx2 := etx; }
    }

    method LookupFor(q: Pair, newId: int, ghost heard: set<Pair>) returns (con: Con)
      requires Valid() && Fresh(heard)
      modifies conHash, conHash.table
      ensures Valid() && conHash == old(conHash) && ConKey(con) == q && FreshBut(conHash.content, heard, q, con)
      ensures if q in old(conHash.content) then con == old(conHash.content)[q] else fresh(con)
      ensures conHash.content == old(conHash.content)[q := con]
      ensures Known() == old(Known())[q := FactsOf(con)]
      ensures FactsOf(con) == if q in old(Known()) then old(Known())[q] else NewFacts(newId)
      ensures conHash.table == old(conHash.table)
      ensures conHash.elements == old(conHash.elements) + if q in old(conHash.content) then 0 else 1
    {
      ghost var before := conHash.content;
      con := Lookup(q, newId);
      ConsOfOthers(conHash.content, q, con);
      FreshButOne(before, conHash.content, heard, q, con);
    }

    /** Note a connection that was announced: its entry is there afterwards, fresh, and
        carries the cost on the announcing node's side. The other side and all other
        connections keep theirs. */
    method HandleCon(id1: NodeId, id2: NodeId, etx: real, newId: int, otherId: int, ghost heard: set<Pair>)
      returns (con: Con)
      requires Valid() && Fresh(heard)
      modifies this, conHash, conHash.table, conHash.content.Values
      ensures Valid() && Fresh(heard + {PairOf(id1, id2)})
      ensures ConKey(con) == PairOf(id1, id2) && conHash.content == old(conHash.content)[PairOf(id1, id2) := con]
      ensures if PairOf(id1, id2) in old(conHash.content) then con == old(conHash.content)[PairOf(id1, id2)] else fresh(con)
      ensures Known() == Noted(old(Known()), Announcement(id1, id2, etx), newId, otherId)
      ensures var e := old(conHash.elements) + if PairOf(id1, id2) in old(conHash.content) then 0 else 1;
              conHash.table.Length == Doubled(e, old(conHash.table.Length))
      ensures conHash == old(conHash) || (fresh(conHash) && fresh(conHash.table))
    {
      var q := PairOf(id1, id2);
      con := LookupFor(q, newId, heard);
      ghost var f := FactsOf(con);
      Note(con, id1, etx, otherId, conHash.content, heard, q);
      NotedIs(old(Known()), Known(), q, f, Announcement(id1, id2, etx), newId, otherId);
    }

    /** What handle_con does once it has the connection. */
    method Note(con: Con, id1: NodeId, etx: real, otherId: int,
                ghost content: map<Pair, Con>, ghost heard: set<Pair>, ghost q: Pair)
      requires Valid() && content == conHash.content && FreshBut(content, heard, q, con)
      modifies this, con
      ensures Valid() && conHash.content == content && FreshIn(content, heard + {q})
      ensures FactsIn(content) == old(FactsIn(content))[q := NotedFor(old(FactsOf(con)), ConKey(con), id1, etx, otherId)]
      ensures conHash.table.Length == Doubled(old(conHash.elements), old(conHash.table.Length))
      ensures conHash == old(conHash) || (fresh(conHash) && fresh(conHash.table))
    {
      NoteCost(con, id1, etx, otherId, content, heard, q);
      Grow();
      FlagHeard(con, content, heard, q);
    }

    lemma ConsOfOthers(content: map<Pair, Con>, q: Pair, con: Con)
      requires Valid() && content == conHash.content && ConKey(con) == q
      ensures forall p :: p in content && p != q ==> content[p] != con
    {
      forall p | p in content && p != q ensures content[p] != con { assert ConKey(content[p]) == p; }
    }

    lemma MetCons(met: seq<int>)
      requires Valid() && met == All(conHash.chains)
      ensures Met(met, conHash.cells, conHash.content)
    {
      conHash.MetKeys();
      conHash.MetKeysDiffer();
      var was, held := conHash.cells, conHash.content;
      forall i | 0 <= i < |met| ensures MetAt(met, was, held, i) { assert met[i] in met; }
      forall q | q in held
        ensures exists i :: 0 <= i < |met| && MetAt(met, was, held, i) && KeyAt(ConKey, was, met[i]) == q
      {
        var x :| x in met && 0 <= x < |was| && KeyAt(ConKey, was, x) == q;
        var i :| 0 <= i < |met| && met[i] == x;
        assert MetAt(met, was, held, i);
      }
    }

    lemma FlagsBefore(met: seq<int>, was: seq<Cell<Con>>, held: map<Pair, Con>, heard: set<Pair>)
      requires Met(met, was, held) && held == conHash.content && Fresh(heard)
      ensures FlagsAfter(met, was, 0, heard)
    {
      forall j | 0 <= j < |met| ensures FlagAt(met, was, 0, heard, j) { assert MetAt(met, was, held, j); }
    }

    /** The end of a block: whatever was not announced in it goes, and the rest counts as old
        until it is announced again. */
    method EndOfBlock(ghost heard: set<Pair>)
      requires Valid() && Fresh(heard)
      modifies conHash, conHash.table, conHash.content.Values
      ensures Valid() && Fresh({}) && conHash == old(conHash)
      ensures conHash.content.Keys == heard
      ensures forall q :: q in conHash.content ==> conHash.content[q] == old(conHash.content)[q]
      ensures forall q :: q in Known() ==> q in old(Known()) && Known()[q] == old(Known())[q]
    {
      ghost var held := conHash.content;
      ghost var met := All(conHash.chains);
      ghost var was := conHash.cells;
      MetCons(met);
      FlagsBefore(met, was, held, heard);
      MetOnlyHeld(met, was, held);
      SweepCons(conHash, met, was, held, heard);
    }

    /** A whole block, from any number of earlier ones on: afterwards the table holds exactly
        the unordered pairs announced in this block. Each has on either side the last cost
        that side announced, or the one it had before, 1.0 if the pair is new. */
    method ProcessBlock(block: seq<Announcement>, ids: nat -> int)
      requires Valid() && Fresh({})
      modifies this, conHash, conHash.table, conHash.content.Values
      ensures Valid() && Fresh({})
      ensures conHash.content.Keys == Pairs(block)
      ensures forall q :: q in Known() ==> q in NotedAll(old(Known()), block, ids)
                                           && Known()[q] == NotedAll(old(Known()), block, ids)[q]
      ensures forall q :: q in Known() ==> CostsAreLast(block, q, FactsAt(old(Known()), q), Known()[q])
      ensures forall q :: q in conHash.content && q in old(conHash.content) ==> conHash.content[q] == old(conHash.content)[q]
    {
      ghost var m := Known();
      HearAll(block, ids);
      assert block[..|block|] == block;
      EndOfBlock(Pairs(block));
      forall q | q in Known() ensures CostsAreLast(block, q, FactsAt(m, q), Known()[q]) { NotedAreLast(m, block, ids, q); }
    }

    /** All announcements of a block. */
    method HearAll(block: seq<Announcement>, ids: nat -> int)
      requires Valid() && Fresh({})
      modifies this, conHash, conHash.table, conHash.content.Values
      ensures Heard(block, |block|, old(conHash.content), old(Known()), ids)
      ensures forall q :: q in conHash.content && q !in old(conHash.content) ==> fresh(conHash.content[q])
      ensures (conHash == old(conHash) && conHash.table == old(conHash.table)) || (fresh(conHash) && fresh(conHash.table))
    {
      ghost var cons, h, tab, m := conHash.content, conHash, conHash.table, Known();
      var k := 0;
      while k < |block|
        invariant 0 <= k <= |block| && Heard(block, k, cons, m, ids)
        invariant forall q :: q in conHash.content && q !in cons ==> fresh(conHash.content[q])
        invariant (conHash == h && conHash.table == tab) || (fresh(conHash) && fresh(conHash.table))
      {
        HearNext(block, k, ids, cons, m);
        k := k + 1;
      }
    }

    /** The first k announcements of a block were handled, the connections of earlier blocks
        still being in the table. */
    ghost predicate Heard(block: seq<Announcement>, k: nat, cons: map<Pair, Con>, m: map<Pair, Facts>, ids: nat -> int)
      requires k <= |block|
      reads this, conHash, conHash.table, conHash.content.Values
    {
      Valid() && Fresh(Pairs(block[..k])) && Grown(cons, conHash.content) && Known() == NotedAll(m, block[..k], ids)
    }

    method HearNext(block: seq<Announcement>, k: nat, ids: nat -> int, ghost cons: map<Pair, Con>,
                    ghost m: map<Pair, Facts>)
      requires k < |block| && Heard(block, k, cons, m, ids)
      modifies this, conHash, conHash.table, conHash.content.Values
      ensures Heard(block, k + 1, cons, m, ids)
      ensures forall q :: q in conHash.content && q !in old(conHash.content) ==> fresh(conHash.content[q])
      ensures forall q :: q in conHash.content && q in old(conHash.content) ==> conHash.content[q] == old(conHash.content)[q]
      ensures (conHash == old(conHash) && conHash.table == old(conHash.table)) || (fresh(conHash) && fresh(conHash.table))
    {
      PairsStep(block, k);
      NotedNext(m, block, k, ids);
      var a := block[k];
      var con := HandleCon(a.from, a.to, a.etx, ids(2 * k), ids(2 * k + 1), Pairs(block[..k]));
    }
  }

  /** More connections, the earlier ones as they were. */
  ghost predicate Grown(before: map<Pair, Con>, after: map<Pair, Con>) {
    forall q :: q in before ==> q in after && after[q] == before[q]
  }

  lemma PairsStep(block: seq<Announcement>, k: nat)
    requires k < |block|
    ensures Pairs(block[..k + 1]) == Pairs(block[..k]) + {PairOf(block[k].from, block[k].to)}
  {
    var a, b := block[..k], block[..k + 1];
    assert b == a + [block[k]];
    forall p | p in Pairs(a) + {PairOf(block[k].from, block[k].to)} ensures p in Pairs(b) {
      if p in Pairs(a) {
        var j :| 0 <= j < |a| && PairOf(a[j].from, a[j].to) == p;
        assert b[j] == a[j];
      } else {
        assert b[k] == block[k];
      }
    }
  }

  /** Those to be swept out. */
  ghost function Unheard(heard: set<Pair>): (nat, Con) -> bool {
    (i: nat, c: Con) => ConKey(c) !in heard
  }

  /** Check for old connections and remove them. */
  method SweepCons(h: Table<Con, Pair>, ghost met: seq<int>, ghost was: seq<Cell<Con>>, ghost held: map<Pair, Con>,
                   ghost heard: set<Pair>)
    requires h.Valid() && h.key == ConKey && met == All(h.chains) && was == h.cells && held == h.content
    requires Met(met, was, held) && FlagsAfter(met, was, 0, heard) && heard <= held.Keys
    modifies h, h.table, Cons(met, was)
    ensures h.Valid() && h.content.Keys == heard
    ensures forall q :: q in h.content ==> q in held && h.content[q] == held[q] && h.content[q].isOld
    ensures forall c :: c in Cons(met, was) ==> FactsOf(c) == old(FactsOf(c))
  {
    ghost var known := map c | c in Cons(met, was) :: FactsOf(c);
    var it, more;
    ghost var k: nat;
    it, more, k := h.Iterate(START, 0, false, [], met);
    SweepStarts(h, met, was, held, heard, it, k, more);
    SweepRest(h, met, was, held, heard, it, k, more, known);
    SweptOut(met, was, held, h.content, heard);
    AllOld(met, was, h.content, |met|, heard);
  }

  /** All of the sweep's iterations. */
  method SweepRest(h: Table<Con, Pair>, ghost met: seq<int>, ghost was: seq<Cell<Con>>, ghost held: map<Pair, Con>,
                   ghost heard: set<Pair>, it0: HashIt, ghost k0: nat, more0: bool, ghost known: map<Con, Facts>)
    requires h.Valid() && h.key == ConKey && h.Sweeping(met, was, held, Unheard(heard), 0, [], it0, k0, more0)
    requires FlagsAfter(met, was, 0, heard) && known.Keys == Cons(met, was) && FactsAre(known)
    modifies h, h.table, Cons(met, was)
    ensures h.Valid() && FlagsAfter(met, was, |met|, heard) && FactsAre(known)
    ensures forall i :: 0 <= i < |met| ==> DecidedAt(ConKey, was, h.content, met, Unheard(heard), i)
    ensures forall q :: q in h.content ==> q in held && h.content[q] == held[q]
  {
    var it, more := it0, more0;
    ghost var i: nat, k: nat, behind: seq<int> := 0, k0, [];
    while more
      invariant h.Valid() && h.Sweeping(met, was, held, Unheard(heard), i, behind, it, k, more)
      invariant FlagsAfter(met, was, i, heard) && FactsAre(known)
      decreases |met| - i
    {
      behind, it, k, more := SweepCon(h, met, was, held, heard, i, behind, it, k, known);
      i := i + 1;
    }
    assert met[..i] == met;
  }

  lemma SweepStarts(h: Table<Con, Pair>, met: seq<int>, was: seq<Cell<Con>>, held: map<Pair, Con>, heard: set<Pair>,
                    it: HashIt, k: nat, more: bool)
    requires h.Valid() && h.key == ConKey && met == All(h.chains) && was == h.cells && held == h.content
    requires KeysDiffer(ConKey, was, met) && more == (met != [])
    requires more ==> it.bucket == met[0] && StandsAt(h.chains, it, k, false)
                      && Progress(h.chains, it, k, false, [] + [met[0]], met[1..])
    ensures h.Sweeping(met, was, held, Unheard(heard), 0, [], it, k, more)
  {
    assert met[..0] == [];
  }

  /** One connection: removed if nothing was heard of it since the last sweep, and
      flagged old otherwise, until something is. */
  method SweepCon(h: Table<Con, Pair>, ghost met: seq<int>, ghost was: seq<Cell<Con>>, ghost held: map<Pair, Con>,
                  ghost heard: set<Pair>, ghost i: nat, ghost behind: seq<int>, it: HashIt, ghost k: nat,
                  ghost known: map<Con, Facts>)
    returns (ghost behind': seq<int>, next: HashIt, ghost k': nat, more: bool)
    requires h.Valid() && h.key == ConKey && h.Sweeping(met, was, held, Unheard(heard), i, behind, it, k, true)
    requires FlagsAfter(met, was, i, heard) && known.Keys == Cons(met, was) && FactsAre(known)
    modifies h, h.table, Cons(met, was)
    ensures h.Valid() && h.Sweeping(met, was, held, Unheard(heard), i + 1, behind', next, k', more)
    ensures FlagsAfter(met, was, i + 1, heard) && FactsAre(known)
  {
    h.Current(it, k);
    var con := h.cells[it.bucket].data;
    assert FlagAt(met, was, i, heard, i);
    assert con == was[met[i]].data;
    behind', next, k', more := h.SweepNext(con.isOld, met, was, held, Unheard(heard), i, behind, it, k);
    con.isOld := true;
    ConsDiffer(met, was, i);
    ghost var met1 := i + 1;
    forall j | 0 <= j < |met| ensures FlagAt(met, was, met1, heard, j) {
      assert old(FlagAt(met, was, i, heard, j));
    }
  }

  /** The cells met hold the connections of the map, each once. */
  ghost predicate Met(met: seq<int>, was: seq<Cell<Con>>, held: map<Pair, Con>) {
    && KeysDiffer(ConKey, was, met)
    && (forall i :: 0 <= i < |met| ==> MetAt(met, was, held, i))
    && (forall q :: q in held ==> exists i :: 0 <= i < |met| && MetAt(met, was, held, i) && KeyAt(ConKey, was, met[i]) == q)
  }

  ghost predicate MetAt(met: seq<int>, was: seq<Cell<Con>>, held: map<Pair, Con>, i: nat)
    requires i < |met|
  {
    0 <= met[i] < |was| && KeyAt(ConKey, was, met[i]) in held && held[KeyAt(ConKey, was, met[i])] == was[met[i]].data
  }

  /** When i connections have been met, those are flagged old, and of the others those not
      heard of. */
  ghost predicate FlagsAfter(met: seq<int>, was: seq<Cell<Con>>, i: nat, heard: set<Pair>)
    reads Cons(met, was)
  {
    forall j :: 0 <= j < |met| ==> FlagAt(met, was, i, heard, j)
  }

  ghost predicate FactsAre(known: map<Con, Facts>)
    reads known.Keys
  {
    forall c :: c in known ==> FactsOf(c) == known[c]
  }

  ghost function Cons(met: seq<int>, was: seq<Cell<Con>>): set<Con> {
    set j | 0 <= j < |met| && 0 <= met[j] < |was| :: was[met[j]].data
  }

  ghost predicate FlagAt(met: seq<int>, was: seq<Cell<Con>>, i: nat, heard: set<Pair>, j: nat)
    requires j < |met|
    reads if 0 <= met[j] < |was| then {was[met[j]].data} else {}
  {
    0 <= met[j] < |was| && was[met[j]].data.isOld == (j < i || ConKey(was[met[j]].data) !in heard)
  }

  lemma MetCon(met: seq<int>, was: seq<Cell<Con>>, held: map<Pair, Con>, i: nat)
    requires Met(met, was, held) && i < |met|
    ensures 0 <= met[i] < |was| && was[met[i]].data in held.Values
  {
    assert MetAt(met, was, held, i);
  }

  lemma ConsDiffer(met: seq<int>, was: seq<Cell<Con>>, i: nat)
    requires KeysDiffer(ConKey, was, met) && i < |met|
    ensures forall j :: 0 <= j < |met| && j != i ==>
              0 <= met[j] < |was| && 0 <= met[i] < |was| && was[met[j]].data != was[met[i]].data
  {
    forall j | 0 <= j < |met| && j != i ensures was[met[j]].data != was[met[i]].data {
      assert KeyAt(ConKey, was, met[j]) != KeyAt(ConKey, was, met[i]);
    }
  }

  lemma MetOnlyHeld(met: seq<int>, was: seq<Cell<Con>>, held: map<Pair, Con>)
    requires Met(met, was, held)
    ensures Cons(met, was) <= held.Values
  {
    forall j | 0 <= j < |met| && 0 <= met[j] < |was| ensures was[met[j]].data in held.Values { MetCon(met, was, held, j); }
  }

  /** After the sweep the map holds what was heard of. */
  lemma SweptOut(met: seq<int>, was: seq<Cell<Con>>, held: map<Pair, Con>, content: map<Pair, Con>, heard: set<Pair>)
    requires Met(met, was, held) && heard <= held.Keys
    requires forall i :: 0 <= i < |met| ==> DecidedAt(ConKey, was, content, met, Unheard(heard), i)
    requires forall q :: q in content ==> q in held && content[q] == held[q]
    ensures content.Keys == heard
    ensures forall q :: q in content ==> HeldAt(met, was, content[q])
  {
    forall q | q in held
      ensures q in content <==> q in heard
      ensures HeldAt(met, was, held[q])
    {
      var i :| 0 <= i < |met| && MetAt(met, was, held, i) && KeyAt(ConKey, was, met[i]) == q;
      assert DecidedAt(ConKey, was, content, met, Unheard(heard), i);
      assert was[met[i]].data == held[q];
    }
  }

  ghost predicate HeldAt(met: seq<int>, was: seq<Cell<Con>>, c: Con) {
    exists i :: 0 <= i < |met| && 0 <= met[i] < |was| && was[met[i]].data == c
  }

  lemma AllOld(met: seq<int>, was: seq<Cell<Con>>, content: map<Pair, Con>, i: nat, heard: set<Pair>)
    requires FlagsAfter(met, was, i, heard) && i == |met|
    requires forall q :: q in content ==> HeldAt(met, was, content[q])
    ensures forall q :: q in content ==> content[q].isOld
  {
    forall q | q in content ensures content[q].isOld {
      var j :| 0 <= j < |met| && 0 <= met[j] < |was| && was[met[j]].data == content[q];
      assert FlagAt(met, was, i, heard, j);
    }
  }
}
