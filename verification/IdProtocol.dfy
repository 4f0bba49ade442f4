/** Object ids on their way between the server's slots, the messages, the client's stock and
    the application: whichever steps are taken, no id is in two places. */
module IdProtocol {
  import opened ObjectQueue

  datatype Slot = Free | System | Taken

  datatype Request = NewObj | DelObj(id: int)

  /** The server's slots, both channels, the client's stock, and what the application holds. */
  datatype State = State(
    slots: seq<Slot>,
    toServer: seq<Request>,
    toClient: seq<int>,         // ids in NEWOBJ messages
    queue: seq<int>,
    requested: int,
    held: multiset<int>,
    given: nat)                 // how many ids were ever given out

  datatype Step =
    | Serve                     // the server takes a request
    | Receive                   // the client takes a NEWOBJ message
    | Want                      // a round of _queue_want_object
    | Delete(id: int)           // the application deletes an object it holds

  // ------------------------------------------------------------ the server's slots

  function FirstFree(slots: seq<Slot>): (i: nat)
    ensures i <= |slots| && (i < |slots| ==> slots[i] == Free)
  {
    if slots == [] || slots[0] == Free then 0 else 1 + FirstFree(slots[1..])
  }

  /** A new object's slot: the first free one, or one more. */
  function Allocated(slots: seq<Slot>): seq<Slot> {
    var i := FirstFree(slots);
    if i < |slots| then slots[i := Taken] else slots + [Taken]
  }

  /** Free slots at the end are given back. */
  function Trimmed(slots: seq<Slot>): seq<Slot> {
    if slots != [] && slots[|slots| - 1] == Free then Trimmed(slots[..|slots| - 1]) else slots
  }

  /** A deletion request frees a taken slot; system objects and missing ones stay. */
  function Deleted(slots: seq<Slot>, id: int): seq<Slot> {
    if 0 <= id < |slots| && slots[id] == Taken
    then (if id == |slots| - 1 then Trimmed(slots[id := Free]) else slots[id := Free])
    else slots
  }

  /** The live non-system slots. */
  function TakenIds(slots: seq<Slot>): set<int> {
    set i | 0 <= i < |slots| && slots[i] == Taken
  }

  lemma AllocatesOne(slots: seq<Slot>)
    ensures FirstFree(slots) !in TakenIds(slots)
    ensures TakenIds(Allocated(slots)) == TakenIds(slots) + {FirstFree(slots)}
  {
  }

  lemma {:induction false} TrimKeepsTaken(slots: seq<Slot>)
    ensures TakenIds(Trimmed(slots)) == TakenIds(slots)
    decreases |slots|
  {
    if slots != [] && slots[|slots| - 1] == Free {
      TrimKeepsTaken(slots[..|slots| - 1]);
      assert TakenIds(slots[..|slots| - 1]) == TakenIds(slots);
    }
  }

  lemma DeletesOne(slots: seq<Slot>, id: int)
    ensures TakenIds(Deleted(slots, id)) == TakenIds(slots) - {id}
  {
    if id in TakenIds(slots) {
      TrimKeepsTaken(slots[id := Free]);
      assert TakenIds(slots[id := Free]) == TakenIds(slots) - {id};
    }
  }

  // ------------------------------------------------------------ the steps

  predicate May(s: State, step: Step) {
    match step
    case Serve => s.toServer != []
    case Receive => s.toClient != []
    case Want => true
    case Delete(id) => id in s.held
  }

  function Next(s: State, step: Step): State
    requires May(s, step)
  {
    match step
    case Serve =>
      if s.toServer[0] == NewObj
      then s.(toServer := s.toServer[1..], slots := Allocated(s.slots), toClient := s.toClient + [FirstFree(s.slots)])
      else s.(toServer := s.toServer[1..], slots := Deleted(s.slots, s.toServer[0].id))
    case Receive =>
      s.(toClient := s.toClient[1..], queue := Stocked(s.queue, s.toClient[0]), requested := s.requested - 1)
    case Want =>
      var i := FirstUsed(s.queue);
      if i < |s.queue|
      then s.(queue := s.queue[i := UNUSED], toServer := s.toServer + [NewObj], given := s.given + 1,
              held := s.held + multiset{s.queue[i]})
      else if s.requested < MAX_REQ
      then s.(toServer := s.toServer + [NewObj], requested := s.requested + 1)
      else s
    case Delete(id) =>
      s.(held := s.held - multiset{id}, toServer := s.toServer + [DelObj(id)])
  }

  /** After the client's queue was initialised: one request is under way, and whatever
      objects the server has are its own. */
  predicate Initial(s: State) {
    && s.toServer == [NewObj] && s.toClient == [] && s.queue == [UNUSED] && s.requested == 0
    && s.held == multiset{} && s.given == 0 && TakenIds(s.slots) == {}
  }

  // ------------------------------------------------------------ where the ids are

  /** The ids in deletion requests under way. */
  function Leaving(q: seq<Request>): multiset<int> {
    if q == [] then multiset{} else (if q[0].DelObj? then multiset{q[0].id} else multiset{}) + Leaving(q[1..])
  }

  /** How many ids have been asked for in requests under way. */
  function Asked(q: seq<Request>): nat {
    if q == [] then 0 else (if q[0].NewObj? then 1 else 0) + Asked(q[1..])
  }

  lemma {:induction false} RequestsJoin(a: seq<Request>, r: Request)
    ensures Leaving(a + [r]) == Leaving(a) + if r.DelObj? then multiset{r.id} else multiset{}
    ensures Asked(a + [r]) == Asked(a) + if r.NewObj? then 1 else 0
  {
    if a == [] {
      assert a + [r] == [r];
    } else {
      assert (a + [r])[1..] == a[1..] + [r];
      RequestsJoin(a[1..], r);
    }
  }

  /** Every live non-system slot's id is in exactly one place: the stock, a NEWOBJ message,
      the application, or a deletion request. And the counter tells how many ids are on
      their way, given how many were given out. */
  predicate Inv(s: State) {
    && AtHand(s.queue) + multiset(s.toClient) + s.held + Leaving(s.toServer) == multiset(TakenIds(s.slots))
    && Asked(s.toServer) + |s.toClient| == s.requested + s.given + 1
  }

  lemma InitialIsGood(s: State)
    requires Initial(s)
    ensures Inv(s)
  {
    assert Leaving([NewObj]) == multiset{} && Asked([NewObj]) == 1;
    assert AtHand([UNUSED]) == multiset{};
  }

  lemma OneMore(a: set<int>, x: int)
    requires x !in a
    ensures multiset(a + {x}) == multiset(a) + multiset{x}
  {
  }

  lemma OneLess(a: set<int>, x: int)
    requires x in a
    ensures multiset(a - {x}) == multiset(a) - multiset{x}
  {
  }

  lemma ServeKeeps(s: State)
    requires Inv(s) && May(s, Serve)
    ensures Inv(Next(s, Serve))
  {
    if s.toServer[0] == NewObj {
      AllocatesOne(s.slots);
      OneMore(TakenIds(s.slots), FirstFree(s.slots));
    } else {
      var id := s.toServer[0].id;
      DeletesOne(s.slots, id);
      assert id in Leaving(s.toServer);
      assert id in multiset(TakenIds(s.slots));
      OneLess(TakenIds(s.slots), id);
    }
  }

  lemma ReceiveKeeps(s: State)
    requires Inv(s) && May(s, Receive)
    ensures Inv(Next(s, Receive))
  {
    var id := s.toClient[0];
    assert s.toClient == [id] + s.toClient[1..];
    assert id in multiset(s.toClient);
    assert id in multiset(TakenIds(s.slots));
    StockedHasOneMore(s.queue, id);
  }

  lemma WantKeeps(s: State)
    requires Inv(s)
    ensures Inv(Next(s, Want))
  {
    RequestsJoin(s.toServer, NewObj);
    if FirstUsed(s.queue) < |s.queue| { GivenHasOneLess(s.queue); }
  }

  lemma DeleteKeeps(s: State, id: int)
    requires Inv(s) && May(s, Delete(id))
    ensures Inv(Next(s, Delete(id)))
  {
    RequestsJoin(s.toServer, DelObj(id));
  }

  lemma StepKeeps(s: State, step: Step)
    requires Inv(s) && May(s, step)
    ensures Inv(Next(s, step))
  {
    match step
    case Serve => ServeKeeps(s);
    case Receive => ReceiveKeeps(s);
    case Want => WantKeeps(s);
    case Delete(id) => DeleteKeeps(s, id);
  }

  ghost predicate Run(s: State, steps: seq<Step>, t: State)
    decreases |steps|
  {
    if steps == [] then t == s else May(s, steps[0]) && Run(Next(s, steps[0]), steps[1..], t)
  }

  lemma {:induction false} RunKeeps(s: State, steps: seq<Step>, t: State)
    requires Inv(s) && Run(s, steps, t)
    ensures Inv(t)
    decreases |steps|
  {
    if steps != [] {
      StepKeeps(s, steps[0]);
      RunKeeps(Next(s, steps[0]), steps[1..], t);
    }
  }

  /** Over every interleaving: what the application holds are live objects of the server,
      each held once, and none of them is at hand, under way or leaving. */
  lemma IdsAreHeldOnce(s: State, steps: seq<Step>, t: State)
    requires Initial(s) && Run(s, steps, t)
    ensures forall id :: id in t.held ==>
              0 <= id < |t.slots| && t.slots[id] == Taken && t.held[id] == 1
              && id !in t.queue && id !in t.toClient && id !in Leaving(t.toServer)
    ensures forall id :: 0 <= id < |t.slots| && t.slots[id] == Taken ==>
              id in t.queue || id in t.toClient || id in t.held || id in Leaving(t.toServer)
  {
    InitialIsGood(s);
    RunKeeps(s, steps, t);
    var all := multiset(TakenIds(t.slots));
    forall id | id in t.held
      ensures 0 <= id < |t.slots| && t.slots[id] == Taken && t.held[id] == 1
              && id !in t.queue && id !in t.toClient && id !in Leaving(t.toServer)
    {
      assert all[id] == AtHand(t.queue)[id] + multiset(t.toClient)[id] + t.held[id] + Leaving(t.toServer)[id];
      assert id in t.queue ==> id in multiset(t.queue);
      assert id in t.toClient ==> id in multiset(t.toClient);
    }
    forall id | 0 <= id < |t.slots| && t.slots[id] == Taken
      ensures id in t.queue || id in t.toClient || id in t.held || id in Leaving(t.toServer)
    {
      assert all[id] == AtHand(t.queue)[id] + multiset(t.toClient)[id] + t.held[id] + Leaving(t.toServer)[id];
      assert id in TakenIds(t.slots);
    }
  }

  /** Was id given out by this step? */
  predicate Gives(s: State, step: Step, id: int)
    requires May(s, step)
  {
    step == Want && FirstUsed(s.queue) < |s.queue| && s.queue[FirstUsed(s.queue)] == id
  }

  /** What is held is not at hand. */
  lemma HeldIsNotGiven(s: State, id: int)
    requires Inv(s) && id in s.held
    ensures !Gives(s, Want, id)
  {
    var all, i := multiset(TakenIds(s.slots)), FirstUsed(s.queue);
    assert all[id] == AtHand(s.queue)[id] + multiset(s.toClient)[id] + s.held[id] + Leaving(s.toServer)[id];
    if i < |s.queue| { GivenHasOneLess(s.queue); }
  }

  lemma StillHeld(s: State, step: Step, id: int)
    requires May(s, step) && id in s.held && step != Delete(id)
    ensures id in Next(s, step).held
  {
  }

  /** An id given out twice was deleted in between. */
  lemma {:induction false} HeldUntilDeleted(s: State, steps: seq<Step>, t: State, id: int)
    requires Inv(s) && id in s.held && Run(s, steps, t) && Gives(t, Want, id)
    ensures Delete(id) in steps
    decreases |steps|
  {
    if steps == [] {
      HeldIsNotGiven(s, id);
    } else if steps[0] != Delete(id) {
      StepKeeps(s, steps[0]);
      StillHeld(s, steps[0], id);
      HeldUntilDeleted(Next(s, steps[0]), steps[1..], t, id);
    }
  }

  /** The counter does not bound what is under way: that stays within the limit exactly while
      the counter and the number of ids ever given out do together. */
  lemma RequestsUnderWay(s: State, steps: seq<Step>, t: State)
    requires Initial(s) && Run(s, steps, t)
    ensures Asked(t.toServer) + |t.toClient| == t.requested + t.given + 1
    ensures Asked(t.toServer) + |t.toClient| <= MAX_REQ <==> t.requested + t.given + 1 <= MAX_REQ
    ensures t.requested <= MAX_REQ
  {
    InitialIsGood(s);
    RunKeeps(s, steps, t);
    CounterLimited(s, steps, t);
  }

  lemma {:induction false} CounterLimited(s: State, steps: seq<Step>, t: State)
    requires s.requested <= MAX_REQ && Run(s, steps, t)
    ensures t.requested <= MAX_REQ
    decreases |steps|
  {
    if steps != [] { CounterLimited(Next(s, steps[0]), steps[1..], t); }
  }

  function Wants(k: nat): seq<Step> { if k == 0 then [] else [Want] + Wants(k - 1) }

  /** With nothing at hand every round sends one more request, up to the limit. */
  lemma {:induction false} WantsPileUp(s: State, k: nat) returns (t: State)
    requires FirstUsed(s.queue) == |s.queue| && s.requested + k <= MAX_REQ
    ensures Run(s, Wants(k), t) && Asked(t.toServer) == Asked(s.toServer) + k && t.requested == s.requested + k
    decreases k
  {
    t := s;
    if k > 0 {
      RequestsJoin(s.toServer, NewObj);
      t := WantsPileUp(Next(s, Want), k - 1);
    }
  }

  const START := State([System], [NewObj], [], [UNUSED], 0, multiset{}, 0)

  /** A client that has its first id and asks for MAX_REQ + 1 objects at once has more than
      MAX_REQ requests under way. */
  lemma TooManyRequests() returns (t: State)
    ensures Initial(START) && Run(START, [Serve, Receive] + Wants(MAX_REQ + 1), t)
    ensures Asked(t.toServer) == MAX_REQ + 1 && t.requested < MAX_REQ
  {
    var s1 := Next(START, Serve);
    assert FirstFree([System]) == 1 by { assert [System][1..] == []; }
    assert s1.toServer == [] && s1.toClient == [1];
    var s2 := Next(s1, Receive);
    assert s2.queue == [1] && s2.requested == -1;
    var s3 := Next(s2, Want);
    assert s3.queue == [UNUSED] && Asked(s3.toServer) == 1;
    t := WantsPileUp(s3, MAX_REQ);
    var steps, wants := [Serve, Receive] + Wants(MAX_REQ + 1), Wants(MAX_REQ + 1);
    assert wants == [Want] + Wants(MAX_REQ) && wants[1..] == Wants(MAX_REQ);
    assert Run(s2, wants, t);
    assert steps[1..] == [Receive] + wants && ([Receive] + wants)[1..] == wants;
    assert Run(s1, steps[1..], t);
  }
}
