/** The server's process table: processes are numbered by their place, which removal
    changes, and each initialised one is represented by an object of the MCP. */
module Processes {
  import opened Kinds
  import opened Options

  /** An object of the MCP: what it clones, or which process it stands for. */
  datatype Obj = Obj(kind: Kind, cloneOoid: int, virtualPid: int)

  datatype Proc = Proc(id: int, mcpOid: int)

  type Objects = seq<Option<Obj>>

  const MCP := 0

  predicate Live(O: Objects, oid: int) { 0 <= oid < |O| && O[oid].Some? }

  // ------------------------------------------------------------ coherence

  /** The process is numbered by its place; its MCP object, if it has one, stands for it. */
  predicate ProcOk(procs: seq<Proc>, O: Objects, i: int)
    requires 0 <= i < |procs|
  {
    && procs[i].id == i
    && (procs[i].mcpOid != -1 ==>
          Live(O, procs[i].mcpOid) && O[procs[i].mcpOid].value.kind == Virtual
          && O[procs[i].mcpOid].value.virtualPid == i)
  }

  /** The table holds at least the MCP, process 0; the focus is nowhere or on a live
      object that has the virtual bit. */
  ghost predicate Coherent(procs: seq<Proc>, O: Objects, focus: int) {
    && |procs| > 0
    && (forall i :: 0 <= i < |procs| ==> ProcOk(procs, O, i))
    && (focus == -1 || (Live(O, focus) && Has(O[focus].value.kind, OF_VIRTUAL)))
  }

  /** No two processes share an MCP object. */
  lemma ObjectsAreDistinct(procs: seq<Proc>, O: Objects, focus: int, i: int, j: int)
    requires Coherent(procs, O, focus) && 0 <= i < j < |procs| && procs[i].mcpOid != -1
    ensures procs[i].mcpOid != procs[j].mcpOid
  {
    assert ProcOk(procs, O, i) && ProcOk(procs, O, j);
  }

  /** Every virtual object stands for a process that knows it. */
  ghost predicate AllOwned(procs: seq<Proc>, O: Objects) {
    forall x :: Live(O, x) && O[x].value.kind == Virtual ==> Owned(procs, O[x].value.virtualPid, x)
  }

  predicate Owned(procs: seq<Proc>, pid: int, x: int) {
    0 <= pid < |procs| && procs[pid].mcpOid == x
  }

  // ------------------------------------------------------------ slots

  function FirstFree(O: Objects): (i: nat)
    ensures i <= |O| && (i < |O| ==> O[i].None?)
  {
    if O == [] || O[0].None? then 0 else 1 + FirstFree(O[1..])
  }

  function Added(O: Objects, o: Obj): Objects {
    if FirstFree(O) < |O| then O[FirstFree(O) := Some(o)] else O + [Some(o)]
  }

  function Trimmed(O: Objects): Objects {
    if O != [] && O[|O| - 1].None? then Trimmed(O[..|O| - 1]) else O
  }

  /** An object's slot is emptied, and empty slots at the end are given back. */
  function Freed(O: Objects, oid: int): Objects
    requires 0 <= oid < |O|
  {
    if oid == |O| - 1 then Trimmed(O[oid := None]) else O[oid := None]
  }

  lemma {:induction false} TrimmedSame(O: Objects)
    ensures |Trimmed(O)| <= |O|
    ensures forall x :: Live(Trimmed(O), x) <==> Live(O, x)
    ensures forall x :: Live(O, x) ==> Live(Trimmed(O), x) && Trimmed(O)[x] == O[x]
    decreases |O|
  {
    if O != [] && O[|O| - 1].None? { TrimmedSame(O[..|O| - 1]); }
  }

  lemma FreedOthers(O: Objects, oid: int)
    requires 0 <= oid < |O|
    ensures |Freed(O, oid)| <= |O|
    ensures forall x :: Live(Freed(O, oid), x) <==> Live(O, x) && x != oid
    ensures forall x :: Live(O, x) && x != oid ==> Live(Freed(O, oid), x) && Freed(O, oid)[x] == O[x]
  {
    TrimmedSame(O[oid := None]);
  }

  /** Clones of the object are clones no longer. */
  function Uncloned(O: Objects, oid: int): (P: Objects)
    ensures |P| == |O|
  {
    seq(|O|, j requires 0 <= j < |O| =>
      if O[j].Some? && O[j].value.kind == Clone && O[j].value.cloneOoid == oid
      then Some(O[j].value.(kind := Plain, cloneOoid := 0)) else O[j])
  }

  // ------------------------------------------------------------ what requests do to the table

  /** Place pid is filled with the last process, whose object is told. */
  function Removed(procs: seq<Proc>, pid: int): seq<Proc>
    requires 0 <= pid < |procs|
  {
    procs[pid := procs[|procs| - 1].(id := pid)][..|procs| - 1]
  }

  function Renumbered(procs: seq<Proc>, O: Objects, pid: int): Objects
    requires 0 <= pid < |procs|
  {
    var oid := procs[|procs| - 1].mcpOid;
    if pid != |procs| - 1 && Live(O, oid) then O[oid := Some(O[oid].value.(virtualPid := pid))] else O
  }

  /** Swap-removal keeps the rest of the table coherent: the moved process's object names
      its new place. */
  lemma RemovalKeepsCoherent(procs: seq<Proc>, O: Objects, focus: int, pid: int)
    requires 0 < pid < |procs|
    requires forall i :: 0 <= i < |procs| && i != pid ==> ProcOk(procs, O, i)
    requires focus == -1 || (Live(O, focus) && Has(O[focus].value.kind, OF_VIRTUAL))
    ensures Coherent(Removed(procs, pid), Renumbered(procs, O, pid), focus)
  {
    var last := |procs| - 1;
    var ps, P := Removed(procs, pid), Renumbered(procs, O, pid);
    assert pid != last ==> ProcOk(procs, O, last);
    forall i | 0 <= i < last ensures ProcOk(ps, P, i) {
      if i != pid { assert ProcOk(procs, O, i); }
    }
  }

  lemma RemovalKeepsOwned(procs: seq<Proc>, O: Objects, pid: int)
    requires 0 < pid < |procs| && AllOwned(procs, O)
    requires forall i :: 0 <= i < |procs| && i != pid ==> ProcOk(procs, O, i)
    requires forall x :: Live(O, x) && O[x].value.kind == Virtual ==> O[x].value.virtualPid != pid
    ensures AllOwned(Removed(procs, pid), Renumbered(procs, O, pid))
  {
    var last := |procs| - 1;
    assert pid != last ==> ProcOk(procs, O, last);
    var ps, P := Removed(procs, pid), Renumbered(procs, O, pid);
    forall x | Live(P, x) && P[x].value.kind == Virtual ensures Owned(ps, P[x].value.virtualPid, x) {
      assert Owned(procs, O[x].value.virtualPid, x);
    }
  }

  /** A new object on the MCP for process pid. */
  lemma RegistrationKeepsCoherent(procs: seq<Proc>, O: Objects, focus: int, pid: int)
    requires Coherent(procs, O, focus) && 0 <= pid < |procs|
    ensures var oid := FirstFree(O);
            Coherent(procs[pid := procs[pid].(mcpOid := oid)], Added(O, Obj(Virtual, 0, pid)), focus)
    ensures !Live(O, FirstFree(O))
  {
    var oid, P := FirstFree(O), Added(O, Obj(Virtual, 0, pid));
    var ps := procs[pid := procs[pid].(mcpOid := oid)];
    forall i | 0 <= i < |ps| ensures ProcOk(ps, P, i) { assert ProcOk(procs, O, i); }
  }

  /** All virtual objects stay owned exactly if the process was not initialised before: its
      former object is left behind. */
  lemma RegistrationKeepsOwned(procs: seq<Proc>, O: Objects, focus: int, pid: int)
    requires Coherent(procs, O, focus) && AllOwned(procs, O) && 0 <= pid < |procs|
    ensures var oid := FirstFree(O);
            AllOwned(procs[pid := procs[pid].(mcpOid := oid)], Added(O, Obj(Virtual, 0, pid)))
            <==> procs[pid].mcpOid == -1
  {
    var oid, P := FirstFree(O), Added(O, Obj(Virtual, 0, pid));
    var ps := procs[pid := procs[pid].(mcpOid := oid)];
    assert ProcOk(procs, O, pid);
    if procs[pid].mcpOid == -1 {
      forall x | Live(P, x) && P[x].value.kind == Virtual ensures Owned(ps, P[x].value.virtualPid, x) {
        if x != oid { assert Owned(procs, O[x].value.virtualPid, x); }
      }
    } else {
      var x := procs[pid].mcpOid;
      assert Live(P, x) && P[x] == O[x] && !Owned(ps, P[x].value.virtualPid, x);
    }
  }
}
