/** What every call of the scheduler keeps: each live thread is running, ready or blocked. */
module WutInvariant {
  import opened Wrappers
  import opened WutThreads

  predicate Live(s: State, i: int) { Occupied(s, i) && Thread(s, i).status == RUNNING }

  /** Thread `i` waits for a live thread that knows about it: a join edge. */
  predicate Blocked(s: State, i: int) {
    && Live(s, i) && Thread(s, i).block && Live(s, Thread(s, i).joinTo)
    && Thread(s, Thread(s, i).joinTo).join && Thread(s, Thread(s, i).joinTo).joinFrom == i
  }

  /** Slots fill up from below, and never more of them than threads were created. */
  ghost predicate SlotsOk(s: State) {
    && (forall i :: 0 <= i < |s.slots| && s.slots[i].Some? ==> i < s.threadNum)
    && (forall i, j :: 0 <= i < j < |s.slots| && s.slots[j].Some? ==> s.slots[i].Some?)
  }

  ghost predicate Distinct(q: seq<nat>) { forall k, l :: 0 <= k < l < |q| ==> q[k] != q[l] }

  ghost predicate QueueOk(s: State) {
    Distinct(s.queue) && forall k :: 0 <= k < |s.queue| ==> Live(s, s.queue[k])
  }

  /** The two ends of a join edge agree, and its waiter is not ready. */
  predicate EdgeOk(s: State, t: int)
    requires Live(s, t)
  {
    var w := Thread(s, t).joinFrom;
    && (Thread(s, t).join <==> w != -1)
    && (Thread(s, t).join ==>
        && Live(s, w) && w != t && w !in s.queue && Thread(s, w).block && Thread(s, w).joinTo == t
        && Thread(s, w).place == InsideJoin(Pointer(s, t)) && !Thread(s, t).enable)
  }

  ghost predicate EdgesOk(s: State) { forall t :: Live(s, t) ==> EdgeOk(s, t) }

  /** The target of a thread inside wut_join still sits in its slot, which nobody may reuse;
      it is joined by that thread, or it has ended. */
  predicate PlaceOk(s: State, i: int)
    requires Live(s, i)
  {
    Thread(s, i).place.InsideJoin? ==>
      var p := Thread(s, i).place.target;
      && Occupied(s, s.heap[p].id) && Pointer(s, s.heap[p].id) == p && !s.heap[p].enable
      && (s.heap[p].status == RUNNING ==> s.heap[p].join && s.heap[p].joinFrom == i)
  }

  ghost predicate PlacesOk(s: State) {
    && (forall i :: Live(s, i) ==> PlaceOk(s, i))
    && (forall i, j :: Live(s, i) && Live(s, j) && Thread(s, i).place.InsideJoin? && i != j ==>
          Thread(s, i).place != Thread(s, j).place)
  }

  /** A status of -1 means live, because nothing else leaves a status below zero. */
  ghost predicate StatusesOk(s: State) {
    forall p :: 0 <= p < |s.heap| ==> s.heap[p].status == RUNNING || 0 <= s.heap[p].status < 256
  }

  ghost predicate Base(s: State) {
    SlotsOk(s) && QueueOk(s) && EdgesOk(s) && PlacesOk(s) && StatusesOk(s)
  }

  /** Between the writes of a call and its switch: every live thread is ready or blocked. */
  ghost predicate Suspended(s: State) {
    Base(s) && forall i :: Live(s, i) ==> i in s.queue || Blocked(s, i)
  }

  /** While a thread runs: every live thread is exactly one of current, ready and blocked. */
  ghost predicate Inv(s: State) {
    && Base(s) && Live(s, s.current) && Thread(s, s.current).place == Elsewhere
    && s.current !in s.queue && !Blocked(s, s.current)
    && (forall i :: Live(s, i) ==> i == s.current || i in s.queue || Blocked(s, i))
  }

  /** The three possibilities exclude each other, and a ready thread is queued once. */
  lemma ExactlyOne(s: State, i: int)
    requires Inv(s) && Live(s, i)
    ensures (i == s.current && i !in s.queue && !Blocked(s, i))
         || (i != s.current && i in s.queue && !Blocked(s, i))
         || (i != s.current && i !in s.queue && Blocked(s, i))
    ensures Blocked(s, i) ==>
      Thread(s, i).block && Thread(s, Thread(s, i).joinTo).joinFrom == i && Live(s, Thread(s, i).joinTo)
    ensures multiset(s.queue)[i] == if i in s.queue then 1 else 0
  {
    assert EdgesOk(s);
    if Blocked(s, i) { assert EdgeOk(s, Thread(s, i).joinTo); }
    DistinctCount(s.queue, i);
  }

  lemma {:induction false} DistinctCount(q: seq<nat>, i: int)
    requires Distinct(q)
    ensures multiset(q)[i] == if i in q then 1 else 0
  {
    if q != [] {
      var r := q[..|q| - 1];
      assert q == r + [q[|q| - 1]];
      DistinctCount(r, i);
    }
  }

  // ---- Init, create, yield ------------------------------------------------------------

  lemma InitInv()
    ensures Inv(Init()) && Init().current == 0 && |Init().slots| == 256 && Init().threadNum == 1
    ensures Init().queue == []
    ensures forall i :: Live(Init(), i) <==> i == 0
  {
    var s := Init();
    assert forall i :: Occupied(s, i) <==> i == 0;
  }

  /** What a switch does to the control blocks. */
  ghost predicate Switched(s: State, s': State)
    requires s.queue != []
  {
    var y := s.queue[0];
    && s'.slots == s.slots && s'.threadNum == s.threadNum && s'.queue == s.queue[1..] && s'.current == y
    && |s'.heap| == |s.heap|
    && (forall p :: 0 <= p < |s.heap| ==> s'.heap[p] == s.heap[p].(
          place := if p == Pointer(s, y) then Elsewhere else s.heap[p].place,
          enable := s.heap[p].enable || InsideJoin(p) == Thread(s, y).place))
  }

  lemma DispatchSwitches(s: State)
    requires s.queue != []
    ensures Dispatch(s).Switches? && Switched(s, Dispatch(s).s)
    ensures match Thread(s, s.queue[0]).place
      case Elsewhere => Dispatch(s).status == None
      case InsideJoin(p) => Dispatch(s).status == Some(s.heap[p].status)
  {
  }

  lemma SwitchFrame(s: State, s': State)
    requires s.queue != [] && Switched(s, s')
    ensures forall i :: Occupied(s', i) == Occupied(s, i)
    ensures forall i :: Live(s', i) == Live(s, i)
    ensures forall i :: Blocked(s', i) == Blocked(s, i)
  {
  }

  lemma SwitchEdges(s: State, s': State)
    requires s.queue != [] && Switched(s, s') && Suspended(s)
    ensures EdgesOk(s')
  {
    var y := s.queue[0];
    SwitchFrame(s, s');
    hide Blocked;
    forall t | Live(s', t) ensures EdgeOk(s', t) {
      assert EdgeOk(s, t);
      if Thread(s, t).join {
        var w := Thread(s, t).joinFrom;
        assert w != y;
        assert PlaceOk(s, y);
        assert Thread(s', w).place == Thread(s, w).place by { assert Thread(s, w).id == w && Thread(s, y).id == y; }
        assert InsideJoin(Pointer(s, t)) != Thread(s, y).place;
      }
    }
  }

  lemma SwitchPlaces(s: State, s': State)
    requires s.queue != [] && Switched(s, s') && Suspended(s)
    ensures PlacesOk(s')
  {
    var y := s.queue[0];
    SwitchFrame(s, s');
    hide Blocked;
    assert Live(s, y);
    forall i | Live(s', i) ensures PlaceOk(s', i) {
      assert PlaceOk(s, i);
      if i != y { assert Thread(s, i).id == i && Thread(s, y).id == y; }
    }
    forall i, j | Live(s', i) && Live(s', j) && Thread(s', i).place.InsideJoin? && i != j
      ensures Thread(s', i).place != Thread(s', j).place {}
  }

  lemma SwitchKeeps(s: State)
    requires Suspended(s) && s.queue != []
    ensures Dispatch(s).Switches? && Inv(Dispatch(s).s) && Switched(s, Dispatch(s).s)
  {
    hide Dispatch;
    DispatchSwitches(s);
    var y, s' := s.queue[0], Dispatch(s).s;
    SwitchFrame(s, s');
    SwitchEdges(s, s');
    SwitchPlaces(s, s');
    assert Live(s, y);
    ReadyIsNotBlocked(s, y);
    hide Blocked, EdgesOk, PlacesOk;
  }

  lemma ReadyIsNotBlocked(s: State, y: int)
    requires EdgesOk(s) && y in s.queue
    ensures !Blocked(s, y)
  {
    var t := Thread(s, y).joinTo;
    if Live(s, t) { assert EdgeOk(s, t); }
  }
}
