/** What clients do to the server's process table: they connect, initialise, take the MCP's
    place, and quit; and the focus is set. */
module ProcessTable {
  import opened Kinds
  import opened Options
  import opened Processes

  class Server {
    var procs: seq<Proc>
    var objects: Objects        // the MCP's
    var focusOid: int
    var mcpConnected: bool      // con_type of process 0

    ghost predicate Valid()
      reads this
    {
      Coherent(procs, objects, focusOid)
    }

    /** Set up the MCP with its camera and pointer. */
    constructor ()
      ensures Valid() && AllOwned(procs, objects) && focusOid == -1 && !mcpConnected
      ensures procs == FIRST_PROCS && objects == FIRST_OBJECTS
    {
      procs := FIRST_PROCS;
      objects := FIRST_OBJECTS;
      focusOid, mcpConnected := -1, false;
    }

    /** A new connection appears. */
    method ProcessAdd() returns (pid: int)
      requires Valid()
      modifies `procs
      ensures Valid() && pid == |old(procs)| && procs == old(procs) + [Proc(pid, -1)]
      ensures AllOwned(old(procs), objects) ==> AllOwned(procs, objects)
    {
      pid := |procs|;
      ghost var ps := procs;
      procs := procs + [Proc(pid, -1)];
      forall i | 0 <= i < |procs| ensures ProcOk(procs, objects, i) {
        if i < pid { assert ProcOk(ps, objects, i); }
      }
      if AllOwned(ps, objects) {
        forall x | Live(objects, x) && objects[x].value.kind == Virtual
          ensures Owned(procs, objects[x].value.virtualPid, x)
        {
          assert Owned(ps, objects[x].value.virtualPid, x);
        }
      }
    }

    /** Sets a new focus: any object with the virtual bit is taken. While every virtual
        object stands for its process, the focus is then nowhere or with a process, unless
        a pointer was named. */
    method McpFocus(oid: int)
      requires Valid()
      modifies `focusOid
      ensures Valid()
      ensures focusOid == FocusFor(objects, oid)
      ensures AllOwned(procs, objects) ==> (WithProcess(procs, focusOid) <==> !IsPointer(objects, oid))
    {
      if AllOwned(procs, objects) { FocusTakesPointers(procs, objects, focusOid, oid); }
      focusOid := -1;
      if Live(objects, oid) {
        if Has(objects[oid].value.kind, OF_VIRTUAL) {
          focusOid := oid;
        }
      }
    }

    /** Register a process that introduced itself: it gets an object of the MCP, and the
        focus when no MCP is connected. */
    method Register(pid: int)
      requires Valid() && 0 <= pid < |procs|
      modifies `procs, `objects, `focusOid
      ensures Valid() && |procs| == |old(procs)|
      ensures procs[pid].mcpOid == FirstFree(old(objects)) && !Live(old(objects), procs[pid].mcpOid)
      ensures procs == old(procs)[pid := Proc(pid, procs[pid].mcpOid)]
      ensures objects == Added(old(objects), Obj(Virtual, 0, pid))
      ensures focusOid == if mcpConnected then old(focusOid) else procs[pid].mcpOid
      ensures AllOwned(old(procs), old(objects)) ==> (AllOwned(procs, objects) <==> old(procs)[pid].mcpOid == -1)
    {
      RegistrationKeepsCoherent(procs, objects, focusOid, pid);
      if AllOwned(procs, objects) { RegistrationKeepsOwned(procs, objects, focusOid, pid); }
      assert ProcOk(procs, objects, pid);
      FlagsOfKinds();
      var mcpOid := FirstFree(objects);
      objects := Added(objects, Obj(Virtual, 0, pid));
      procs := procs[pid := procs[pid].(mcpOid := mcpOid)];
      if !mcpConnected { McpFocus(mcpOid); }
    }

    /** Clones of an object lose what they are clones of. */
    method DropClones(oid: int)
      modifies `objects
      ensures objects == Uncloned(old(objects), oid)
    {
      ghost var O := objects;
      var j := 0;
      while j < |objects|
        invariant 0 <= j <= |objects| == |O|
        invariant forall k :: 0 <= k < |O| ==> objects[k] == if k < j then Uncloned(O, oid)[k] else O[k]
      {
        if objects[j].Some? && objects[j].value.kind == Clone && objects[j].value.cloneOoid == oid {
          objects := objects[j := Some(objects[j].value.(kind := Plain, cloneOoid := 0))];
        }
        j := j + 1;
      }
    }

    /** Delete what belongs to a process other than the MCP: its object there goes, and the
        focus with it. The process stays in the table for the moment. */
    method DeleteParts(pid: int)
      requires Valid() && 0 < pid < |procs|
      modifies `objects, `focusOid
      ensures forall i :: 0 <= i < |procs| && i != pid ==> ProcOk(procs, objects, i)
      ensures focusOid == -1 || (Live(objects, focusOid) && Has(objects[focusOid].value.kind, OF_VIRTUAL))
      ensures focusOid == if old(focusOid) == procs[pid].mcpOid then -1 else old(focusOid)
      ensures procs[pid].mcpOid != -1 ==> !Live(objects, procs[pid].mcpOid)
      ensures objects == PartsGone(old(objects), procs[pid].mcpOid)
      ensures forall x :: Live(objects, x) && objects[x].value.kind == Virtual ==> objects[x] == old(SlotAt(objects, x))
    {
      var mcpOid := procs[pid].mcpOid;
      assert ProcOk(procs, objects, pid);
      FlagsOfKinds();
      if mcpOid != -1 {
        ghost var O := objects;
        DropClones(mcpOid);
        ghost var P := objects;
        FreedOthers(P, mcpOid);
        objects := Freed(objects, mcpOid);
        if mcpOid == focusOid { focusOid := -1; }
        forall i | 0 <= i < |procs| && i != pid ensures ProcOk(procs, objects, i) {
          assert ProcOk(procs, O, i);
          if procs[i].mcpOid != -1 {
            assert procs[i].mcpOid != mcpOid;
            assert P[procs[i].mcpOid] == O[procs[i].mcpOid];
          }
        }
        if focusOid != -1 { assert P[focusOid] == O[focusOid]; }
      }
    }

    /** The table without the process: the last one takes its place, and its object is told
        the new number. */
    method ListRemove(pid: int)
      requires 0 < pid < |procs|
      requires forall i :: 0 <= i < |procs| && i != pid ==> ProcOk(procs, objects, i)
      requires focusOid == -1 || (Live(objects, focusOid) && Has(objects[focusOid].value.kind, OF_VIRTUAL))
      modifies `procs, `objects
      ensures Valid() && procs == Removed(old(procs), pid) && objects == Renumbered(old(procs), old(objects), pid)
    {
      RemovalKeepsCoherent(procs, objects, focusOid, pid);
      ghost var ps, O := procs, objects;
      var last := |procs| - 1;
      if pid != last {                       // the last one moves up
        assert ProcOk(procs, objects, last);
        procs := procs[pid := procs[last]];
        procs := procs[pid := procs[pid].(id := pid)];
        var mcpOid := procs[pid].mcpOid;
        if mcpOid != -1 {                    // it may not have introduced itself yet
          objects := objects[mcpOid := Some(objects[mcpOid].value.(virtualPid := pid))];
        }
      }
      procs := procs[..last];
      assert procs == Removed(ps, pid) && objects == Renumbered(ps, O, pid);
    }

    /** Deletes the process with that number. */
    method ProcessDel(pid: int) returns (result: int)
      requires Valid()
      modifies this
      ensures Valid() && result == if 0 <= pid < |old(procs)| then 0 else -1
      ensures procs == if 0 < pid < |old(procs)| then Removed(old(procs), pid) else old(procs)
      ensures mcpConnected == (old(mcpConnected) && pid != MCP)
      ensures focusOid == if 0 < pid < |old(procs)| && old(focusOid) == old(procs)[pid].mcpOid then -1 else old(focusOid)
      ensures pid == MCP ==> forall x :: SlotAt(objects, x) == AfterMcp(old(objects), x)
      ensures 0 < pid < |old(procs)| ==>
                !Live(objects, old(procs)[pid].mcpOid)
                && objects == Renumbered(old(procs), PartsGone(old(objects), old(procs)[pid].mcpOid), pid)
      ensures result == -1 ==> objects == old(objects)
      ensures AllOwned(old(procs), old(objects)) ==> AllOwned(procs, objects)
    {
      if pid == MCP {
        mcpConnected := false;
        ClearMcp();
        return 0;
      }
      if 0 < pid < |procs| {
        ghost var ps, O := procs, objects;
        DeleteParts(pid);
        if AllOwned(ps, O) {
          StillOwned(ps, O, objects, pid);
          RemovalKeepsOwned(procs, objects, pid);
        }
        ListRemove(pid);
        return 0;
      }
      return -1;
    }

    /** The MCP's entry stays; of its objects only the system's and the virtual ones do. */
    method ClearMcp()
      requires Valid()
      modifies `objects
      ensures Valid()
      ensures AllOwned(procs, old(objects)) ==> AllOwned(procs, objects)
      ensures forall x :: SlotAt(objects, x) == AfterMcp(old(objects), x)
    {
      ghost var O := objects;
      var i := 0;
      while i < |objects|
        invariant 0 <= i <= |O| && |objects| <= |O|
        invariant forall x :: Live(objects, x) <==> Live(O, x) && (x < i ==> Stays(O[x].value.kind))
        invariant forall x :: Live(objects, x) ==> Live(O, x) && objects[x] == O[x]
        decreases |O| - i
      {
        if objects[i].Some? {
          if !Stays(objects[i].value.kind) {
            FreedOthers(objects, i);
            objects := Freed(objects, i);
          }
        }
        i := i + 1;
      }
      FlagsOfKinds();
      forall k | 0 <= k < |procs| ensures ProcOk(procs, objects, k) { assert ProcOk(procs, O, k); }
      if AllOwned(procs, O) {
        forall x | Live(objects, x) && objects[x].value.kind == Virtual
          ensures Owned(procs, objects[x].value.virtualPid, x)
        {
          assert Owned(procs, O[x].value.virtualPid, x);
        }
      }
    }

    /** A process becomes the MCP when that place is free: it is taken off the list, its
        connection goes on as process 0, and nothing is focussed. */
    method TakeMcp(pid: int) returns (granted: bool)
      requires Valid() && 0 < pid < |procs|
      modifies this
      ensures Valid() && granted == !old(mcpConnected) && mcpConnected
      ensures granted ==> procs == Removed(old(procs), pid) && focusOid == -1
      ensures granted ==> objects == Renumbered(old(procs), PartsGone(old(objects), old(procs)[pid].mcpOid), pid)
      ensures !granted ==> procs == old(procs) && objects == old(objects) && focusOid == old(focusOid)
      ensures AllOwned(old(procs), old(objects)) ==> AllOwned(procs, objects)
    {
      if !mcpConnected {
        ghost var ps, O := procs, objects;
        DeleteParts(pid);
        if AllOwned(ps, O) {
          StillOwned(ps, O, objects, pid);
          RemovalKeepsOwned(procs, objects, pid);
        }
        mcpConnected := true;
        focusOid := -1;
        ListRemove(pid);
        return true;
      }
      return false;
    }

    /** Request for process initialisation: some names are refused, one asks for the MCP's
        place, and any other registers the process, which is then represented by a new object
        of the MCP, and has the focus unless an MCP is connected. */
    method ProtInit(pid: int, name: string) returns (granted: bool)
      requires Valid() && 0 <= pid < |procs|
      modifies this
      ensures Valid()
      ensures granted <==> !Reserved(name) && (AsksForMcp(pid, name) ==> !old(mcpConnected))
      ensures !granted ==> procs == old(procs) && objects == old(objects) && focusOid == old(focusOid)
      ensures mcpConnected == (old(mcpConnected) || (granted && AsksForMcp(pid, name)))
      ensures granted && AsksForMcp(pid, name) ==>
                && procs == Removed(old(procs), pid) && focusOid == -1
                && objects == Renumbered(old(procs), PartsGone(old(objects), old(procs)[pid].mcpOid), pid)
      ensures granted && !AsksForMcp(pid, name) ==>
                var oid := FirstFree(old(objects));
                && procs == old(procs)[pid := Proc(pid, oid)] && !Live(old(objects), oid)
                && SlotAt(objects, oid) == Some(Obj(Virtual, 0, pid))
                && (forall x :: x != oid ==> SlotAt(objects, x) == SlotAt(old(objects), x))
                && focusOid == if mcpConnected then old(focusOid) else oid
      ensures AllOwned(old(procs), old(objects)) && old(procs[pid].mcpOid) == -1 ==> AllOwned(procs, objects)
    {
      assert |name| >= 4 ==> name[..4][0] == name[0] == name[..3][0];
      if StartsWith(name, "sys_") { return false; }
      if pid != MCP && StartsWith(name, "mcp") {
        granted := TakeMcp(pid);
      } else {
        Register(pid);
        granted := true;
      }
    }
  }

  predicate Reserved(name: string) { StartsWith(name, "sys_") }

  /** By its name the process wants to be the MCP, which it is not. */
  predicate AsksForMcp(pid: int, name: string) { pid != MCP && StartsWith(name, "mcp") }

  /** The slots of a process's object and its clones once it quits. */
  function PartsGone(O: Objects, oid: int): Objects {
    if Live(O, oid) then Freed(Uncloned(O, oid), oid) else O
  }

  /** Slot x when the MCP has left: its own objects and clones are gone. */
  function AfterMcp(O: Objects, x: int): Option<Obj> {
    if Live(O, x) && O[x].value.kind != Plain && O[x].value.kind != Clone then O[x] else None
  }

  /** The MCP alone, with its camera and its pointer. */
  const FIRST_PROCS: seq<Proc> := [Proc(0, -1)]
  const FIRST_OBJECTS: Objects := [Some(Obj(Camera, 0, 0)), Some(Obj(Pointer, 0, 0))]

  /** The focus after it was set to oid. */
  function FocusFor(O: Objects, oid: int): int { if Live(O, oid) && Has(O[oid].value.kind, OF_VIRTUAL) then oid else -1 }

  /** The focus is nowhere, or on the object some process is represented by. */
  ghost predicate WithProcess(procs: seq<Proc>, focus: int) {
    focus == -1 || exists pid :: 0 <= pid < |procs| && procs[pid].mcpOid == focus
  }

  predicate IsPointer(O: Objects, oid: int) {
    Live(O, oid) && (O[oid].value.kind == Pointer || O[oid].value.kind == Pointer3D)
  }

  /** The type bits of a pointer contain the virtual bit: the MCP's own pointers are taken for
      a focus although no process is behind them, and nothing else without a process is. */
  lemma FocusTakesPointers(procs: seq<Proc>, O: Objects, focus: int, oid: int)
    requires Coherent(procs, O, focus) && AllOwned(procs, O)
    ensures WithProcess(procs, FocusFor(O, oid)) <==> !IsPointer(O, oid)
  {
    FlagsOfKinds();
    if IsPointer(O, oid) {
      forall pid | 0 <= pid < |procs| ensures procs[pid].mcpOid != oid { assert ProcOk(procs, O, pid); }
    } else if FocusFor(O, oid) != -1 {
      assert Owned(procs, O[oid].value.virtualPid, oid);
    }
  }

  /** It happens right after the start: object 1 is the pointer. */
  lemma FirstPointerTakesFocus()
    ensures Coherent(FIRST_PROCS, FIRST_OBJECTS, -1) && AllOwned(FIRST_PROCS, FIRST_OBJECTS)
    ensures FocusFor(FIRST_OBJECTS, 1) == 1 && !WithProcess(FIRST_PROCS, 1)
  {
    FlagsOfKinds();
    assert ProcOk(FIRST_PROCS, FIRST_OBJECTS, 0);
  }

  predicate StartsWith(name: string, prefix: string) { |prefix| <= |name| && name[..|prefix|] == prefix }

  /** What the MCP's leaving does not take along. */
  predicate Stays(k: Kind) { Has(k, OF_SYSTEM) || Has(k, OF_VIRTUAL) }

  function SlotAt(O: Objects, x: int): Option<Obj> { if 0 <= x < |O| then O[x] else None }

  /** Once a process's object is gone, no virtual object names the process. */
  lemma StillOwned(procs: seq<Proc>, O: Objects, P: Objects, pid: int)
    requires AllOwned(procs, O) && 0 < pid < |procs| && Coherent(procs, O, -1)
    requires procs[pid].mcpOid != -1 ==> !Live(P, procs[pid].mcpOid)
    requires forall x :: Live(P, x) && P[x].value.kind == Virtual ==> P[x] == SlotAt(O, x)
    ensures AllOwned(procs, P)
    ensures forall x :: Live(P, x) && P[x].value.kind == Virtual ==> P[x].value.virtualPid != pid
  {
    forall x | Live(P, x) && P[x].value.kind == Virtual
      ensures Owned(procs, P[x].value.virtualPid, x) && P[x].value.virtualPid != pid
    {
      assert Owned(procs, O[x].value.virtualPid, x);
    }
  }
}
