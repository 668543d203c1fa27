/** Create, yield, join and exit keep the invariant. */
module WutCalls {
  import opened Wrappers
  import opened WutThreads
  import opened WutInvariant

  // ---- Yield --------------------------------------------------------------------------

  lemma EnqueueFrame(s: State, i: int)
    requires Occupied(s, i)
    ensures var s' := Enqueue(s, i);
      && (forall j :: Occupied(s', j) == Occupied(s, j)) && (forall j :: Live(s', j) == Live(s, j))
      && (forall j :: Blocked(s', j) == Blocked(s, j))
  {
  }

  lemma YieldSuspends(s: State)
    requires Inv(s)
    ensures Suspended(Enqueue(s, s.current))
  {
    var s' := Enqueue(s, s.current);
    EnqueueFrame(s, s.current);
    hide Blocked;
    forall t | Live(s', t) ensures EdgeOk(s', t) {
      assert EdgeOk(s, t);
      if Thread(s, t).join { WaiterIsBlocked(s, t); }
    }
    forall i | Live(s', i) ensures PlaceOk(s', i) { assert PlaceOk(s, i); }
  }

  /** The other end of a join edge is blocked, hence neither running nor ready. */
  lemma WaiterIsBlocked(s: State, t: int)
    requires Inv(s) && Live(s, t) && Thread(s, t).join
    ensures var w := Thread(s, t).joinFrom;
      Live(s, w) && Blocked(s, w) && w != s.current && w !in s.queue && Thread(s, w).joinTo == t
  {
    assert EdgeOk(s, t);
  }

  /** What a blocked thread waits for. */
  lemma BlockedFacts(s: State, i: int)
    requires Inv(s) && Blocked(s, i)
    ensures var t := Thread(s, i).joinTo;
      && Live(s, t) && Thread(s, t).join && Thread(s, t).joinFrom == i && i != s.current && i !in s.queue
      && Thread(s, i).place == InsideJoin(Pointer(s, t))
  {
    assert EdgeOk(s, Thread(s, i).joinTo);
  }

  // ---- Exit ---------------------------------------------------------------------------

  /** What an exit does before it switches. */
  ghost predicate Terminated(s: State, s': State, status: int) {
    var x := Pointer(s, s.current);
    && s'.slots == s.slots && s'.threadNum == s.threadNum && s'.current == s.current && |s'.heap| == |s.heap|
    && s'.queue == s.queue + (if s.heap[x].join then [s.heap[x].joinFrom] else [])
    && (forall p :: 0 <= p < |s.heap| && p != x ==> s'.heap[p] == s.heap[p])
    && s'.heap[x] == s.heap[x].(status := LowByte(status), join := false,
                                joinFrom := if s.heap[x].join then -1 else s.heap[x].joinFrom)
  }

  lemma TerminateEffect(s: State, status: int)
    requires Live(s, s.current)
    ensures Terminated(s, Terminate(s, status), status)
  {
  }

  lemma TerminatedFrame(s: State, s': State, status: int)
    requires Inv(s) && Terminated(s, s', status)
    ensures forall i :: Occupied(s', i) == Occupied(s, i)
    ensures forall i :: Live(s', i) <==> Live(s, i) && i != s.current
    ensures forall i :: Live(s', i) ==> Thread(s', i) == Thread(s, i)
    ensures forall i :: Live(s', i) ==> (Blocked(s', i) <==> Blocked(s, i) && Thread(s, i).joinTo != s.current)
  {
    forall i | Live(s, i) && i != s.current ensures Pointer(s, i) != Pointer(s, s.current) {
      assert Thread(s, i).id == i;
    }
    forall i | Live(s', i) ensures Thread(s', i) == Thread(s, i) {}
  }

  lemma TerminatedQueue(s: State, s': State, status: int)
    requires Inv(s) && Terminated(s, s', status)
    ensures QueueOk(s') && forall i :: Live(s', i) ==> i in s'.queue || Blocked(s', i)
  {
    TerminatedFrame(s, s', status);
    if Thread(s, s.current).join { WaiterIsBlocked(s, s.current); }
    forall i | Live(s', i) ensures i in s'.queue || Blocked(s', i) {
      if Blocked(s, i) { BlockedFacts(s, i); }
    }
  }

  lemma TerminatedEdges(s: State, s': State, status: int)
    requires Inv(s) && Terminated(s, s', status)
    ensures EdgesOk(s') && PlacesOk(s')
  {
    TerminatedFrame(s, s', status);
    hide Blocked;
    forall t | Live(s', t) ensures EdgeOk(s', t) {
      assert EdgeOk(s, t) && EdgeOk(s, s.current);
      if Thread(s, t).join { WaiterIsBlocked(s, t); }
    }
    forall i | Live(s', i) ensures PlaceOk(s', i) { assert PlaceOk(s, i); }
  }

  lemma TerminateSuspends(s: State, status: int)
    requires Inv(s)
    ensures Suspended(Terminate(s, status)) && Terminated(s, Terminate(s, status), status)
  {
    TerminateEffect(s, status);
    var s' := Terminate(s, status);
    hide Terminate;
    TerminatedQueue(s, s', status);
    TerminatedEdges(s, s', status);
  }

  // ---- Join ---------------------------------------------------------------------------

  /** What a blocking join does before it switches. */
  ghost predicate BlockedOn(s: State, s': State, id: int)
    requires Occupied(s, id)
  {
    var x, t := Pointer(s, s.current), Pointer(s, id);
    && s'.slots == s.slots && s'.threadNum == s.threadNum && s'.current == s.current && |s'.heap| == |s.heap|
    && s'.queue == s.queue
    && (forall p :: 0 <= p < |s.heap| && p != x && p != t ==> s'.heap[p] == s.heap[p])
    && s'.heap[x] == s.heap[x].(block := true, joinTo := id, place := InsideJoin(t))
    && s'.heap[t] == s.heap[t].(join := true, enable := false, joinFrom := s.current)
  }

  lemma BlockEffect(s: State, id: int)
    requires Occupied(s, id) && id != s.current
    ensures BlockedOn(s, Block(s, id), id)
  {
    assert Thread(s, id).id == id && Thread(s, s.current).id == s.current;
  }

  ghost predicate MayBlock(s: State, id: int) {
    Inv(s) && Live(s, id) && id != s.current && !Thread(s, id).join
  }

  lemma BlockedFrame(s: State, s': State, id: int)
    requires MayBlock(s, id) && BlockedOn(s, s', id)
    ensures forall i :: Occupied(s', i) == Occupied(s, i)
    ensures forall i :: Live(s', i) <==> Live(s, i)
    ensures forall i :: Live(s', i) && i != s.current && i != id ==> Thread(s', i) == Thread(s, i)
    ensures forall i :: Live(s, i) ==> (Blocked(s', i) <==> Blocked(s, i) || i == s.current)
  {
    forall i | Live(s, i) ensures Thread(s, i).id == i {}
    assert forall i :: Live(s', i) <==> Live(s, i);
    assert EdgeOk(s, id);
  }

  lemma BlockedEdges(s: State, s': State, id: int)
    requires MayBlock(s, id) && BlockedOn(s, s', id)
    ensures EdgesOk(s')
  {
    BlockedFrame(s, s', id);
    hide Blocked;
    forall t | Live(s', t) ensures EdgeOk(s', t) {
      assert EdgeOk(s, t);
      if Thread(s, t).join { WaiterIsBlocked(s, t); }
    }
  }

  lemma BlockedPlaces(s: State, s': State, id: int)
    requires MayBlock(s, id) && BlockedOn(s, s', id)
    ensures PlacesOk(s')
  {
    BlockedFrame(s, s', id);
    hide Blocked;
    forall i | Live(s', i) ensures Thread(s', i).id == i && PlaceOk(s', i) { assert PlaceOk(s, i); }
    forall i | Live(s, i) ensures Thread(s, i).place != InsideJoin(Pointer(s, id)) { assert PlaceOk(s, i); }
  }

  lemma BlockSuspends(s: State, id: int)
    requires MayBlock(s, id)
    ensures Suspended(Block(s, id)) && BlockedOn(s, Block(s, id), id)
  {
    BlockEffect(s, id);
    var s' := Block(s, id);
    hide Block;
    BlockedEdges(s, s', id);
    BlockedPlaces(s, s', id);
    BlockedFrame(s, s', id);
    hide Blocked, EdgesOk, PlacesOk;
  }

  // ---- Create -------------------------------------------------------------------------

  /** wut_create always finds a slot: the least one that is empty or holds a thread that has
      ended and that nobody is about to collect. It never takes a live thread's slot. */
  lemma CreateWorks(s: State)
    requires Inv(s)
    ensures Create(s).Returns? && Inv(Create(s).s)
    ensures var s', i := Create(s).s, Create(s).v;
      && 0 <= i < |s'.slots| && !Live(s, i) && i <= s.threadNum && s'.threadNum == s.threadNum + 1
      && (Occupied(s, i) ==> Thread(s, i).enable)
      && (forall j :: 0 <= j < i ==> Occupied(s, j) && (Live(s, j) || !Thread(s, j).enable))
      && s'.queue == s.queue + [i] && s'.current == s.current
      && Occupied(s', i) && Thread(s', i) == Tcb(i, -1, false, -1, -1, false, true, Elsewhere)
      && |s'.slots| == (if s.threadNum >= |s.slots| then 2 * |s.slots| else |s.slots|)
      && (forall j :: Occupied(s', j) && j != i ==> Occupied(s, j) && Pointer(s', j) == Pointer(s, j))
  {
    var s1 := if s.threadNum >= |s.slots| then Resize(s) else s;
    ResizeKeeps(s);
    FreeSlotExists(s1);
    hide Inv, Live;
    var i := FindSlot(s1, 0).value;
    InstallKeeps(s1, i);
    CreateEffect(s, s1, i);
  }

  lemma CreateEffect(s: State, s1: State, i: nat)
    requires s1 == if s.threadNum >= |s.slots| then Resize(s) else s
    requires s1.threadNum < |s1.slots| && i < |s1.slots| && FindSlot(s1, 0) == Some(i)
    ensures var s' := Enqueue(Install(s1, i), i);
      && i < |s'.slots| && !Live(s, i) && s'.threadNum == s.threadNum + 1
      && (Occupied(s, i) ==> Thread(s, i).enable)
      && (forall j :: 0 <= j < i ==> Occupied(s, j) && (Live(s, j) || !Thread(s, j).enable))
      && s'.queue == s.queue + [i] && s'.current == s.current
      && Occupied(s', i) && Thread(s', i) == Tcb(i, -1, false, -1, -1, false, true, Elsewhere)
      && |s'.slots| == (if s.threadNum >= |s.slots| then 2 * |s.slots| else |s.slots|)
      && (forall j :: Occupied(s', j) && j != i ==> Occupied(s, j) && Pointer(s', j) == Pointer(s, j))
  {
    assert forall j :: 0 <= j < |s1.slots| && s1.slots[j].Some? ==> Occupied(s1, j) && Occupied(s, j);
    forall j | 0 <= j < i ensures Occupied(s, j) && (Live(s, j) || !Thread(s, j).enable) {
      assert !Available(s1, j);
    }
  }

  lemma FreeSlotExists(s: State)
    requires Inv(s) && s.threadNum < |s.slots|
    ensures FindSlot(s, 0).Some? && FindSlot(s, 0).value <= s.threadNum
    ensures forall j :: 0 <= j < FindSlot(s, 0).value ==> s.slots[j].Some?
  {
    assert Available(s, s.threadNum);
    forall j | 0 <= j < FindSlot(s, 0).value ensures s.slots[j].Some? { assert !Available(s, j); }
  }

  lemma ResizeKeeps(s: State)
    requires Inv(s)
    ensures Inv(Resize(s)) && forall i :: Occupied(Resize(s), i) == Occupied(s, i)
    ensures forall i :: Live(Resize(s), i) == Live(s, i)
    ensures |Resize(s).slots| == 2 * |s.slots|
    ensures forall i :: Occupied(s, i) ==>
      Thread(Resize(s), i) == Thread(s, i) && Pointer(Resize(s), i) == Pointer(s, i)
  {
    var s' := Resize(s);
    assert forall i :: Occupied(s', i) == Occupied(s, i);
    assert forall i :: Occupied(s, i) ==> Thread(s', i) == Thread(s, i) && Pointer(s', i) == Pointer(s, i);
    assert forall i :: Blocked(s', i) == Blocked(s, i);
    forall t | Live(s', t) ensures EdgeOk(s', t) { assert EdgeOk(s, t); }
    forall i | Live(s', i) ensures PlaceOk(s', i) { assert PlaceOk(s, i); }
  }

  lemma InstallKeeps(s: State, i: nat)
    requires Inv(s) && s.threadNum < |s.slots| && i < |s.slots| && Available(s, i)
    requires forall j :: 0 <= j < i ==> s.slots[j].Some?
    ensures Inv(Enqueue(Install(s, i), i))
  {
    var s' := Enqueue(Install(s, i), i);
    assert Installed(s, s', i);
    hide Install;
    InstallEdges(s, s', i);
    InstallPlaces(s, s', i);
    InstallOthers(s, s', i);
    hide EdgesOk, PlacesOk, Live, Blocked;
  }

  lemma InstallOthers(s: State, s': State, i: nat)
    requires Inv(s) && Installed(s, s', i) && Available(s, i) && (forall j :: 0 <= j < i ==> s.slots[j].Some?)
    ensures SlotsOk(s') && QueueOk(s') && StatusesOk(s')
    ensures Live(s', s.current) && Thread(s', s.current).place == Elsewhere
    ensures s.current !in s'.queue && !Blocked(s', s.current)
    ensures forall j :: Live(s', j) ==> j == s'.current || j in s'.queue || Blocked(s', j)
  {
    assert forall j :: Occupied(s, j) && j != i ==> Thread(s', j) == Thread(s, j) && Pointer(s', j) == Pointer(s, j);
    assert forall j :: Live(s', j) <==> Live(s, j) || j == i;
    hide EdgesOk, PlacesOk;
    assert !Live(s, i) && (i == 0 || s.slots[i - 1].Some?);
    forall j | Live(s, j) ensures Blocked(s', j) == Blocked(s, j) {
      if Blocked(s, j) { assert Thread(s, j).joinTo != i; }
    }
  }

  ghost predicate Installed(s: State, s': State, i: nat) {
    && |s'.heap| == |s.heap| + 1 && s'.heap[..|s.heap|] == s.heap && s'.heap[|s.heap|] == NewTcb(i)
    && i < |s.slots| && s'.slots == s.slots[i := Some(|s.heap|)] && s'.queue == s.queue + [i]
    && s'.current == s.current && s'.threadNum == s.threadNum + 1
  }

  lemma InstallEdges(s: State, s': State, i: nat)
    requires Inv(s) && Installed(s, s', i) && !Live(s, i)
    ensures EdgesOk(s')
  {
    assert forall j :: Occupied(s, j) && j != i ==> Thread(s', j) == Thread(s, j) && Pointer(s', j) == Pointer(s, j);
    assert forall j :: Live(s', j) <==> Live(s, j) || j == i;
    hide Blocked;
    forall t | Live(s', t) ensures EdgeOk(s', t) {
      if t != i { assert EdgeOk(s, t); }
    }
  }

  lemma InstallPlaces(s: State, s': State, i: nat)
    requires Inv(s) && Installed(s, s', i) && Available(s, i)
    ensures PlacesOk(s')
  {
    assert forall j :: Occupied(s, j) && j != i ==> Thread(s', j) == Thread(s, j) && Pointer(s', j) == Pointer(s, j);
    assert forall j :: Live(s', j) <==> Live(s, j) || j == i;
    hide Blocked, EdgesOk;
    forall j | Live(s', j) ensures PlaceOk(s', j) {
      if j != i { assert PlaceOk(s, j); }
    }
  }
}
