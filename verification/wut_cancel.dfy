/** Cancelling a thread: exactly when the scheduler stays consistent, and what is lost when
    it does not. */
module WutCancel {
  import opened WutThreads
  import opened WutInvariant
  import opened WutCalls

  /** The condition under which wut_cancel does the right thing: the flag that says the thread
      is blocked is not left over from an earlier join, and nobody waits for the waiter. */
  predicate CancelIsSound(s: State, id: int)
    requires Live(s, id)
  {
    && (Thread(s, id).block ==> Blocked(s, id))
    && (var w := Thread(s, id).joinFrom;
        w != -1 && Thread(s, w).join ==> Thread(s, w).joinFrom == id)
  }

  // ---- The queue after a removal ------------------------------------------------------

  lemma {:induction false} RemoveElements(q: seq<nat>, i: nat)
    requires Distinct(q)
    ensures Distinct(Remove(q, i)) && forall j :: j in Remove(q, i) <==> j in q && j != i
  {
    if q != [] {
      var h, x := q[..|q| - 1], q[|q| - 1];
      assert q == h + [x] && x !in h;
      RemoveElements(h, i);
      var g := Remove(h, i);
      forall k | 0 <= k < |g| ensures g[k] != x { assert g[k] in g; }
      forall j ensures j in Remove(q, i) <==> j in q && j != i {
        assert j in q <==> j in h || j == x;
      }
    }
  }

  // ---- What a cancellation writes -----------------------------------------------------

  predicate Waited(s: State, id: int)
    requires Occupied(s, id)
  {
    Thread(s, id).joinFrom != -1
  }

  /** The queue with the released waiter, if any, at its end. */
  function LongQueue(s: State, id: nat): seq<nat>
    requires Occupied(s, id)
  {
    if Waited(s, id) then s.queue + [Thread(s, id).joinFrom] else s.queue
  }

  function QueueAfterCancel(s: State, id: nat): seq<nat>
    requires Occupied(s, id)
  {
    if Thread(s, id).block then LongQueue(s, id) else Remove(LongQueue(s, id), id)
  }

  /** Control block `p` once thread `id` has been cancelled. */
  function AfterCancel(s: State, id: int, p: nat): Tcb
    requires Occupied(s, id) && p < |s.heap|
  {
    var c := Thread(s, id);
    var t := s.heap[p];
    if p == Pointer(s, id) then t.(status := CANCELLED, block := false) else
    var woken := Waited(s, id) && p == Pointer(s, c.joinFrom);
    var left := c.block && p == Pointer(s, c.joinTo);
    t.(join := t.join && !woken && !left,
       joinFrom := if left then -1 else t.joinFrom,
       joinTo := if woken then -1 else t.joinTo,
       block := t.block && !woken)
  }

  ghost predicate Cancelled(s: State, s': State, id: int)
    requires Occupied(s, id)
  {
    && s'.slots == s.slots && s'.threadNum == s.threadNum && s'.current == s.current
    && |s'.heap| == |s.heap| && s'.queue == QueueAfterCancel(s, id)
    && (forall p :: 0 <= p < |s.heap| ==> s'.heap[p] == AfterCancel(s, id, p))
  }

  ghost predicate Marked(s: State, s': State, id: int)
    requires Occupied(s, id)
  {
    var c, p, w := Thread(s, id), Pointer(s, id), Thread(s, id).joinFrom;
    && s'.slots == s.slots && s'.threadNum == s.threadNum && s'.current == s.current
    && s'.queue == (if Waited(s, id) then s.queue + [w] else s.queue)
    && s'.heap == if !Waited(s, id) then s.heap[p := c.(status := CANCELLED)] else
         s.heap[p := c.(status := CANCELLED)]
               [Pointer(s, w) := Thread(s, w).(join := false, joinTo := -1, block := false)]
  }

  lemma MarkEffect(s: State, id: int)
    requires Inv(s) && Live(s, id)
    ensures Marked(s, Mark(s, id), id) && (Waited(s, id) ==> Pointer(s, Thread(s, id).joinFrom) != Pointer(s, id))
  {
    assert EdgeOk(s, id);
    assert Thread(s, id).id == id && (Waited(s, id) ==> Thread(s, Thread(s, id).joinFrom).id == Thread(s, id).joinFrom);
  }

  lemma LeaveEffect(s: State, s1: State, id: int)
    requires Inv(s) && Live(s, id) && Marked(s, s1, id) && Thread(s, id).block && Thread(s, id).joinTo != id
    requires Waited(s, id) ==> Pointer(s, Thread(s, id).joinFrom) != Pointer(s, id)
    ensures Thread(s1, id).block && Cancelled(s, LeaveTarget(s1, id), id)
  {
    var s' := LeaveTarget(s1, id);
    var p := Pointer(s, id);
    assert Thread(s, id).id == id && Thread(s, Thread(s, id).joinTo).id == Thread(s, id).joinTo;
    assert s1.heap[p] == Thread(s, id).(status := CANCELLED);
    forall q | 0 <= q < |s.heap| ensures s'.heap[q] == AfterCancel(s, id, q) {}
  }

  lemma DequeueEffect(s: State, s1: State, id: int)
    requires Inv(s) && Live(s, id) && Marked(s, s1, id) && !Thread(s, id).block && id in s.queue
    requires Waited(s, id) ==> Pointer(s, Thread(s, id).joinFrom) != Pointer(s, id)
    requires forall k :: 0 <= k < |Remove(s1.queue, id)| ==> Remove(s1.queue, id)[k] in s1.queue
    ensures id in s1.queue && !Thread(s1, id).block
    ensures Cancelled(s, SetCurrent(s1, Remove(s1.queue, id), s1.current), id)
  {
    hide Inv, Remove;
    var s' := SetCurrent(s1, Remove(s1.queue, id), s1.current);
    forall q | 0 <= q < |s.heap| ensures s'.heap[q] == AfterCancel(s, id, q) {}
  }

  /** A cancellation that is not refused succeeds. */
  lemma CancelEffect(s: State, id: int)
    requires Inv(s) && Live(s, id) && !CancelRefused(s, id) && (Thread(s, id).block ==> Thread(s, id).joinTo != id)
    ensures Cancel(s, id).Returns? && Cancel(s, id).v == 0 && Cancelled(s, Cancel(s, id).s, id)
  {
    MarkEffect(s, id);
    if Thread(s, id).block {
      LeaveEffect(s, Mark(s, id), id);
    } else {
      assert id in s.queue by { assert !Blocked(s, id); }
      RemoveShrinks(Mark(s, id).queue, id);
      DequeueEffect(s, Mark(s, id), id);
    }
    hide Mark, LeaveTarget, Marked, Cancelled, Inv;
  }

  // ---- Sound cancellations keep the invariant -----------------------------------------

  ghost predicate MayCancel(s: State, s': State, id: int) {
    Inv(s) && Live(s, id) && id != s.current && CancelIsSound(s, id) && Cancelled(s, s', id)
  }

  lemma CancelledFrame(s: State, s': State, id: int)
    requires MayCancel(s, s', id)
    ensures forall i :: Occupied(s', i) == Occupied(s, i)
    ensures forall i :: Live(s', i) <==> Live(s, i) && i != id
    ensures forall i :: Occupied(s, i) ==>
      Thread(s', i) == AfterCancel(s, id, Pointer(s, i)) && Pointer(s', i) == Pointer(s, i)
    ensures forall i, j :: Occupied(s, i) && Occupied(s, j) && i != j ==> Pointer(s, i) != Pointer(s, j)
  {
    forall i | Occupied(s, i) ensures Thread(s, i).id == i {}
    forall i ensures Live(s', i) <==> Live(s, i) && i != id {}
  }

  lemma LongQueueFacts(s: State, id: int)
    requires Inv(s) && Live(s, id) && CancelIsSound(s, id)
    ensures var q := LongQueue(s, id);
      && Distinct(q) && (forall k :: 0 <= k < |q| ==> Live(s, q[k]))
      && (Thread(s, id).block ==> id !in q)
      && (forall j :: j in q <==> j in s.queue || (Waited(s, id) && j == Thread(s, id).joinFrom))
  {
    assert EdgeOk(s, id);
    if Waited(s, id) { WaiterIsBlocked(s, id); }
    if Blocked(s, id) { BlockedFacts(s, id); }
    hide Blocked, EdgesOk, PlacesOk;
  }

  lemma CancelledQueue(s: State, s': State, id: int)
    requires MayCancel(s, s', id)
    ensures QueueOk(s')
    ensures forall j :: j in s'.queue <==> j != id && (j in s.queue || (Waited(s, id) && j == Thread(s, id).joinFrom))
  {
    CancelledFrame(s, s', id);
    hide Inv, CancelIsSound, Blocked;
    LongQueueFacts(s, id);
    var q := LongQueue(s, id);
    RemoveElements(q, id);
    forall k | 0 <= k < |s'.queue| ensures Live(s', s'.queue[k]) {
      assert s'.queue[k] in q && s'.queue[k] != id;
    }
    assert s'.queue == if Thread(s, id).block then q else Remove(q, id);
  }

  lemma CancelledBlocked(s: State, s': State, id: int, i: int)
    requires MayCancel(s, s', id) && Live(s', i)
    ensures Blocked(s', i) <==> Blocked(s, i) && Thread(s, i).joinTo != id
  {
    CancelledFrame(s, s', id);
    if Waited(s, id) { WaiterIsBlocked(s, id); }
    if Blocked(s, id) { BlockedFacts(s, id); }
    if Blocked(s, i) { BlockedFacts(s, i); }
  }

  lemma CancelledEdge(s: State, s': State, id: int, t: int)
    requires MayCancel(s, s', id) && Live(s', t)
    ensures EdgeOk(s', t)
  {
    CancelledFrame(s, s', id);
    CancelledQueue(s, s', id);
    if Waited(s, id) { WaiterIsBlocked(s, id); }
    if Blocked(s, id) { BlockedFacts(s, id); }
    assert EdgeOk(s, t);
    if Thread(s, t).join { WaiterIsBlocked(s, t); }
    hide Inv, Blocked, QueueOk, EdgesOk;
  }

  lemma CancelledPlace(s: State, s': State, id: int, i: int)
    requires MayCancel(s, s', id) && Live(s', i)
    ensures PlaceOk(s', i) && Live(s, i) && Thread(s', i).place == Thread(s, i).place
  {
    CancelledFrame(s, s', id);
    if Waited(s, id) { WaiterIsBlocked(s, id); }
    if Blocked(s, id) { BlockedFacts(s, id); }
    assert PlaceOk(s, i);
    hide Inv, Blocked, QueueOk, EdgesOk, PlacesOk;
  }

  lemma CancelledEnds(s: State, s': State, id: int)
    requires MayCancel(s, s', id)
    ensures EdgesOk(s') && PlacesOk(s')
  {
    forall t | Live(s', t) ensures EdgeOk(s', t) { CancelledEdge(s, s', id, t); }
    forall i | Live(s', i) ensures PlaceOk(s', i) && Live(s, i) && Thread(s', i).place == Thread(s, i).place {
      CancelledPlace(s, s', id, i);
    }
    hide Blocked, QueueOk, EdgeOk, PlaceOk, Live, Cancelled, CancelIsSound;
  }

  lemma CancelledCover(s: State, s': State, id: int, i: int)
    requires MayCancel(s, s', id) && Live(s', i)
    ensures i == s'.current || i in s'.queue || Blocked(s', i)
  {
    CancelledFrame(s, s', id);
    CancelledQueue(s, s', id);
    CancelledBlocked(s, s', id, i);
    if Blocked(s, i) { BlockedFacts(s, i); }
    hide Blocked, QueueOk, EdgesOk, PlacesOk;
  }

  lemma CancelledSlots(s: State, s': State, id: int)
    requires MayCancel(s, s', id)
    ensures SlotsOk(s') && StatusesOk(s')
  {
    hide Blocked, QueueOk, EdgesOk, PlacesOk, CancelIsSound, QueueAfterCancel;
  }

  lemma CancelledCurrent(s: State, s': State, id: int)
    requires MayCancel(s, s', id)
    ensures Live(s', s'.current) && Thread(s', s'.current).place == Elsewhere
    ensures s'.current !in s'.queue && !Blocked(s', s'.current)
  {
    hide Blocked, QueueOk, PlacesOk, SlotsOk, StatusesOk, QueueAfterCancel, CancelIsSound;
    CancelledFrame(s, s', id);
    CancelledQueue(s, s', id);
    CancelledBlocked(s, s', id, s.current);
    if Waited(s, id) { WaiterIsBlocked(s, id); }
  }

  lemma CancelKeeps(s: State, s': State, id: int)
    requires MayCancel(s, s', id)
    ensures Inv(s')
  {
    hide MayCancel, Live, Blocked, SlotsOk, StatusesOk, QueueOk, EdgesOk, PlacesOk;
    CancelledQueue(s, s', id);
    CancelledEnds(s, s', id);
    CancelledSlots(s, s', id);
    CancelledCurrent(s, s', id);
    forall i | Live(s', i) ensures i == s'.current || i in s'.queue || Blocked(s', i) {
      CancelledCover(s, s', id, i);
    }
  }

  // ---- Unsound cancellations break it -------------------------------------------------

  /** A thread whose flag is stale stays in the queue although it is dead. */
  lemma StaleFlagBreaks(s: State, id: int)
    requires Inv(s) && Live(s, id) && !CancelRefused(s, id) && Thread(s, id).block && !Blocked(s, id)
    ensures Cancel(s, id).Returns? && id in Cancel(s, id).s.queue && !Live(Cancel(s, id).s, id)
  {
    MarkEffect(s, id);
    var s1 := Mark(s, id);
    assert s1.heap[Pointer(s1, id)] == Thread(s, id).(status := CANCELLED);
    assert id in s1.queue;
    hide Mark;
    var s' := Cancel(s, id).s;
    assert s'.queue == s1.queue && Thread(s', id).status == CANCELLED;
  }

  /** A waiter that is itself waited on is taken for one that nobody waits for: the thread
      waiting for it is no longer current, ready or blocked. */
  lemma LostWaiterBreaks(s: State, id: int)
    requires Inv(s) && Live(s, id) && !CancelRefused(s, id) && (Thread(s, id).block ==> Blocked(s, id))
    requires !CancelIsSound(s, id)
    ensures var w := Thread(s, id).joinFrom; var z := Thread(s, w).joinFrom; var s' := Cancel(s, id).s;
      && Cancel(s, id).Returns? && Live(s', z) && z != s'.current && z !in s'.queue && !Blocked(s', z)
  {
    var w := Thread(s, id).joinFrom;
    var z := Thread(s, w).joinFrom;
    assert EdgeOk(s, id);
    if Blocked(s, id) { BlockedFacts(s, id); }
    CancelEffect(s, id);
    var s' := Cancel(s, id).s;
    hide Cancel;
    WaiterIsBlocked(s, id);
    WaiterIsBlocked(s, w);
    assert Thread(s, id).id == id && Thread(s, w).id == w && Thread(s, z).id == z;
    assert Live(s', z) && Thread(s', z).joinTo == w && !Thread(s', w).join;
    LostFromQueue(s, id, z);
  }

  lemma LostFromQueue(s: State, id: int, z: int)
    requires Occupied(s, id) && z !in s.queue && z != Thread(s, id).joinFrom
    ensures z !in QueueAfterCancel(s, id)
  {
    RemoveShrinks(LongQueue(s, id), id);
    assert z !in LongQueue(s, id);
  }

  /** A cancellation that is not refused keeps the invariant exactly when it is sound. */
  lemma CancelKeepsInvIff(s: State, id: int)
    requires Inv(s) && 0 <= id < |s.slots| && !CancelRefused(s, id)
    ensures Live(s, id) && Cancel(s, id).Returns? && Cancel(s, id).v == 0
    ensures Inv(Cancel(s, id).s) <==> CancelIsSound(s, id)
  {
    if Thread(s, id).block && !Blocked(s, id) {
      StaleFlagBreaks(s, id);
    } else {
      if Blocked(s, id) { BlockedFacts(s, id); }
      CancelEffect(s, id);
      if CancelIsSound(s, id) { CancelKeeps(s, Cancel(s, id).s, id); } else { LostWaiterBreaks(s, id); }
    }
  }
}
