/** The ready queue: a ready thread is overtaken by nobody who comes later. */
module WutQueue {
  import opened WutThreads

  lemma {:induction false} RemoveMovesUp(q: seq<nat>, i: nat, k: nat) returns (k': nat)
    requires k < |q| && q[k] != i
    ensures k' <= k && k' < |Remove(q, i)| && Remove(q, i)[k'] == q[k]
  {
    var h, x := q[..|q| - 1], q[|q| - 1];
    if x == i {
      k' := k;
    } else if k == |h| {
      k' := |Remove(h, i)|;
      RemoveIsShort(h, i);
    } else {
      k' := RemoveMovesUp(h, i, k);
    }
  }

  /** Removing a thread that is queued takes out its last node and keeps the order of all
      others; a thread that is not queued changes nothing. */
  lemma {:induction false} RemoveKeepsOrder(front: seq<nat>, i: nat, back: seq<nat>)
    requires i !in back
    ensures Remove(front + [i] + back, i) == front + back
    ensures Remove(back, i) == back
    decreases |back|
  {
    var q := front + [i] + back;
    if back == [] {
      assert q[..|q| - 1] == front;
    } else {
      var rest, x := back[..|back| - 1], back[|back| - 1];
      assert x in back && forall y :: y in rest ==> y in back;
      assert q[..|q| - 1] == front + [i] + rest;
      RemoveKeepsOrder(front, i, rest);
      assert front + rest + [x] == front + back && rest + [x] == back;
    }
  }

  lemma {:induction false} RemoveIsShort(q: seq<nat>, i: nat)
    ensures |Remove(q, i)| <= |q|
  {
    if q != [] { RemoveIsShort(q[..|q| - 1], i); }
  }

  /** No call moves a ready thread back, and every switch moves it one place forward or, from
      the first place, makes it run. This needs no invariant. */
  lemma ReadyMovesForward(s: State, c: Call, k: nat) returns (k': nat)
    requires k < |s.queue| && c != CallCancel(s.queue[k])
    ensures match Step(s, c)
      case Returns(s', _) => k' <= k && k' < |s'.queue| && s'.queue[k'] == s.queue[k]
      case Switches(s', _) =>
        if k == 0 then s'.current == s.queue[k] else k' < k && k' < |s'.queue| && s'.queue[k'] == s.queue[k]
      case _ => true
  {
    hide Dispatch, Cancel, Create, Block, Terminate, Enqueue, Store;
    k' := k;
    match c
    case CallCreate =>
      CreateQueue(s);
      assert Create(s).Returns? ==> Create(s).s.queue[..|s.queue|][k] == s.queue[k];
    case CallCancel(id) => k' := CancelQueue(s, id, k);
    case CallJoin(id) =>
      if !JoinRefused(s, id) && s.slots[id].Some? && !JoinReturnsAtOnce(s, id) {
        BlockQueue(s, id);
        DispatchQueue(Block(s, id));
        if k > 0 { k' := k - 1; }
      }
    case CallYield =>
      if s.queue != [] {
        EnqueueQueue(s, s.current);
        DispatchQueue(Enqueue(s, s.current));
        if k > 0 { k' := k - 1; }
      }
    case CallExit(status) =>
      TerminateQueue(s, status);
      assert Terminate(s, status).queue[..|s.queue|][k] == s.queue[k];
      if Terminate(s, status).queue != [] {
        DispatchQueue(Terminate(s, status));
        if k > 0 { k' := k - 1; }
      }
  }

  lemma DispatchQueue(s: State)
    requires s.queue != []
    ensures Dispatch(s).Switches?
    ensures Dispatch(s).s.current == s.queue[0] && Dispatch(s).s.queue == s.queue[1..]
  {
  }

  lemma BlockQueue(s: State, id: int)
    requires Occupied(s, id)
    ensures Block(s, id).queue == s.queue
  {
  }

  lemma EnqueueQueue(s: State, i: int)
    requires Occupied(s, i)
    ensures Enqueue(s, i).queue == s.queue + [i]
  {
  }

  lemma TerminateQueue(s: State, status: int)
    ensures |s.queue| <= |Terminate(s, status).queue| && Terminate(s, status).queue[..|s.queue|] == s.queue
  {
  }

  lemma CreateQueue(s: State)
    ensures Create(s).Returns? || Create(s).Crashed?
    ensures Create(s).Returns? ==> |Create(s).s.queue| == |s.queue| + 1 && Create(s).s.queue[..|s.queue|] == s.queue
  {
  }

  lemma CancelQueue(s: State, id: int, k: nat) returns (k': nat)
    requires k < |s.queue| && id != s.queue[k]
    ensures Cancel(s, id).Returns? || Cancel(s, id).Crashed?
    ensures Cancel(s, id).Returns? ==>
      k' <= k && k' < |Cancel(s, id).s.queue| && Cancel(s, id).s.queue[k'] == s.queue[k]
  {
    k' := k;
    if !CancelRefused(s, id) && id < |s.slots| {
      var s1 := Mark(s, id);
      MarkQueue(s, id);
      if !Thread(s1, id).block { k' := RemoveMovesUp(s1.queue, id, k); }
    }
  }

  lemma MarkQueue(s: State, id: int)
    requires Occupied(s, id)
    ensures |s.queue| <= |Mark(s, id).queue| && Mark(s, id).queue[..|s.queue|] == s.queue
  {
  }

  // ---- Runs ---------------------------------------------------------------------------

  /** The number of context switches in a run. */
  function SwitchCount(s: State, p: seq<Call>): nat
    decreases |p|
  {
    if p == [] then 0 else
    match Step(s, p[0])
    case Returns(s', _) => SwitchCount(s', p[1..])
    case Switches(s', _) => 1 + SwitchCount(s', p[1..])
    case _ => 0
  }

  /** Some switch of the run is to thread `y`. */
  predicate GetsToRun(s: State, p: seq<Call>, y: nat)
    decreases |p|
  {
    p != [] &&
    match Step(s, p[0])
    case Returns(s', _) => GetsToRun(s', p[1..], y)
    case Switches(s', _) => s'.current == y || GetsToRun(s', p[1..], y)
    case _ => false
  }

  /** Bounded bypass: the thread at position `k` of the queue runs within k + 1 switches,
      whatever the running threads call, unless it is cancelled first. */
  lemma {:induction false} BoundedBypass(s: State, p: seq<Call>, k: nat)
    requires k < |s.queue| && CallCancel(s.queue[k]) !in p && SwitchCount(s, p) > k
    ensures GetsToRun(s, p, s.queue[k])
    decreases |p|
  {
    hide Step, WellFormed;
    if p != [] {
      var k' := ReadyMovesForward(s, p[0], k);
      match Step(s, p[0])
      case Returns(s', _) => BoundedBypass(s', p[1..], k');
      case Switches(s', _) => if k > 0 { BoundedBypass(s', p[1..], k'); }
      case _ =>
    }
  }
}
