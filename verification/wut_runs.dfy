/** Whole runs of the scheduler: what every disciplined program may rely on. */
module WutRuns {
  import opened Wrappers
  import opened WutThreads
  import opened WutInvariant
  import opened WutCalls
  import opened WutCancel
  import opened WutProgress

  function Next(o: Outcome): Option<State> {
    match o
    case Returns(s, _) => Some(s)
    case Switches(s, _) => Some(s)
    case _ => None
  }

  // ---- One call -----------------------------------------------------------------------

  /** The calls that follow a bad pointer: an index just past the table, an empty slot, or
      the head of an empty queue. */
  predicate Crashes(s: State, c: Call) {
    match c
    case CallCancel(id) => id == s.threadNum == |s.slots|
    case CallJoin(id) =>
      && !JoinRefused(s, id)
      && (s.slots[id].None? || (!JoinReturnsAtOnce(s, id) && s.queue == []))
    case _ => false
  }

  predicate CancelOk(s: State, c: Call) {
    c.CallCancel? && Live(s, c.id) && !CancelRefused(s, c.id) ==> CancelIsSound(s, c.id)
  }

  /** A call crashes exactly in these cases; otherwise it keeps the invariant, provided that
      a cancellation is sound. */
  lemma StepKeepsInv(s: State, c: Call)
    requires Inv(s) && CancelOk(s, c)
    ensures Step(s, c).Crashed? <==> Crashes(s, c)
    ensures Next(Step(s, c)).Some? ==> Inv(Next(Step(s, c)).value)
  {
    match c
    case CallCreate => CreateWorks(s);
    case CallCancel(id) => CancelStep(s, id);
    case CallJoin(id) =>
      if !JoinRefused(s, id) && s.slots[id].Some? && !JoinReturnsAtOnce(s, id) {
        BlockSuspends(s, id);
        if s.queue != [] { SwitchKeeps(Block(s, id)); }
      }
    case CallYield =>
      YieldSuspends(s);
      if s.queue != [] { SwitchKeeps(Enqueue(s, s.current)); }
    case CallExit(status) =>
      TerminateSuspends(s, status);
      if Terminate(s, status).queue != [] { SwitchKeeps(Terminate(s, status)); }
  }

  lemma CancelStep(s: State, id: int)
    requires Inv(s) && CancelOk(s, CallCancel(id))
    ensures Cancel(s, id).Crashed? <==> id == s.threadNum == |s.slots|
    ensures Next(Cancel(s, id)).Some? ==> Inv(Next(Cancel(s, id)).value)
  {
    if 0 <= id < |s.slots| && !CancelRefused(s, id) { CancelKeepsInvIff(s, id); }
  }

  /** The codes of wut_cancel: 0 exactly for a live thread other than the caller. */
  lemma CancelCode(s: State, id: int)
    requires Inv(s) && Cancel(s, id).Returns?
    ensures Cancel(s, id).v == if Live(s, id) && id != s.current then 0 else -1
    ensures Cancel(s, id).v == -1 ==> Cancel(s, id).s == s
  {
    if 0 <= id < |s.slots| && !CancelRefused(s, id) { CancelKeepsInvIff(s, id); }
  }

  /** The codes of a wut_join that does not block: -1 exactly for a bad identifier, the caller
      itself or a live thread that is joined already; the status of a thread that has ended. */
  lemma JoinCode(s: State, id: int)
    requires Inv(s) && Join(s, id).Returns?
    ensures Join(s, id).s == s
    ensures Join(s, id).v == -1 <==> JoinRefused(s, id) || (Live(s, id) && Thread(s, id).join)
    ensures Join(s, id).v != -1 ==> Occupied(s, id) && Join(s, id).v == Thread(s, id).status && 0 <= Join(s, id).v < 256
  {
    assert !JoinRefused(s, id) ==> JoinReturnsAtOnce(s, id);
  }

  /** wut_join, case by case: a bad identifier or the caller itself is refused; an empty slot
      below the number of threads is a null pointer; the status of a thread that has ended, or
      that another thread joins, is returned at once; and otherwise the caller leaves the
      processor to the head of the queue, if there is one. */
  lemma JoinCases(s: State, id: int)
    requires Inv(s)
    ensures id < 0 || id == s.current || id >= s.threadNum ==> Join(s, id) == Returns(s, -1)
    ensures 0 <= id < s.threadNum && id != s.current ==>
      && id < |s.slots|
      && (s.slots[id].None? ==> Join(s, id) == Crashed)
      && (s.slots[id].Some? ==> var t := s.heap[s.slots[id].value];
          && (t.status != -1 || t.join ==> Join(s, id) == Returns(s, t.status))
          && (t.status == -1 && !t.join && s.queue == [] ==> Join(s, id) == Crashed)
          && (t.status == -1 && !t.join && s.queue != [] ==>
              Join(s, id).Switches? && Join(s, id).s.current == s.queue[0] && Blocked(Join(s, id).s, s.current)))
  {
    hide Dispatch, Block, Blocked;
    if 0 <= id < s.threadNum && id != s.current && s.slots[id].Some? && MayBlock(s, id) && s.queue != [] {
      JoinSwitches(s, id);
    }
  }

  lemma JoinSwitches(s: State, id: int)
    requires MayBlock(s, id) && s.queue != []
    ensures Dispatch(Block(s, id)).Switches? && Dispatch(Block(s, id)).s.current == s.queue[0]
    ensures Blocked(Dispatch(Block(s, id)).s, s.current)
  {
    BlockSuspends(s, id);
    var s1 := Block(s, id);
    hide Block, Dispatch;
    BlockedFrame(s, s1, id);
    DispatchSwitches(s1);
    SwitchFrame(s1, Dispatch(s1).s);
  }

  /** wut_yield returns at once, with -1, exactly when every other live thread is blocked. */
  lemma YieldCode(s: State)
    requires Inv(s)
    ensures Yield(s).Returns? <==> forall i :: Live(s, i) ==> i == s.current || Blocked(s, i)
    ensures Yield(s).Returns? ==> Yield(s).v == -1 && Yield(s).s == s
  {
    if s.queue != [] {
      DispatchSwitches(Enqueue(s, s.current));
      ReadyIsNotBlocked(s, s.queue[0]);
    }
    hide Dispatch, Enqueue, Blocked, EdgesOk, PlacesOk;
  }

  /** Calls whose joins cannot deadlock and whose cancellations are sound. */
  ghost predicate Disciplined(s: State, c: Call) {
    && CancelOk(s, c)
    && (c.CallCancel? ==> !Crashes(s, c))
    && (c.CallJoin? && !JoinRefused(s, c.id) ==> Occupied(s, c.id))
    && (c.CallJoin? && MayBlock(s, c.id) ==> !LeadsTo(s, c.id, s.current))
  }

  lemma StepKeepsAcyclic(s: State, c: Call)
    requires Inv(s) && Acyclic(s) && Disciplined(s, c)
    ensures !Step(s, c).Crashed?
    ensures Next(Step(s, c)).Some? ==> Acyclic(Next(Step(s, c)).value)
  {
    match c
    case CallCreate => CreateAcyclic(s);
    case CallCancel(id) => CancelAcyclic(s, id);
    case CallJoin(id) =>
      if !JoinRefused(s, id) && !JoinReturnsAtOnce(s, id) {
        JoinFindsReadyThread(s, id);
        BlockAcyclicIff(s, id);
        BlockSuspends(s, id);
        SwitchAcyclic(Block(s, id));
      }
    case CallYield =>
      if s.queue != [] {
        EnqueueFrame(s, s.current);
        assert FewerEdges(s, Enqueue(s, s.current));
        FewerEdgesAcyclic(s, Enqueue(s, s.current));
        SwitchAcyclic(Enqueue(s, s.current));
      }
    case CallExit(status) =>
      TerminateSuspends(s, status);
      TerminatedNoEdges(s, Terminate(s, status), status);
      FewerEdgesAcyclic(s, Terminate(s, status));
      if Terminate(s, status).queue != [] { SwitchAcyclic(Terminate(s, status)); }
  }

  lemma SwitchAcyclic(s: State)
    requires Acyclic(s) && s.queue != []
    ensures Dispatch(s).Switches? && Acyclic(Dispatch(s).s)
  {
    DispatchSwitches(s);
    SwitchedEdges(s, Dispatch(s).s);
    FewerEdgesAcyclic(s, Dispatch(s).s);
  }

  /** wut_join keeps the joins acyclic exactly when its target does not wait for the caller. */
  lemma JoinAcyclicIff(s: State, id: int)
    requires MayBlock(s, id) && Acyclic(s) && !JoinRefused(s, id) && s.queue != []
    ensures Join(s, id).Switches? && (Acyclic(Join(s, id).s) <==> !LeadsTo(s, id, s.current))
  {
    BlockAcyclicIff(s, id);
    var s1 := Block(s, id);
    hide Block;
    if Acyclic(s1) { SwitchAcyclic(s1); }
    DispatchSwitches(s1);
    if Acyclic(Dispatch(s1).s) {
      SwitchedBack(s1, Dispatch(s1).s);
    }
  }

  lemma SwitchedBack(s: State, s': State)
    requires s.queue != [] && Switched(s, s') && Acyclic(s')
    ensures Acyclic(s)
  {
    SwitchedEdges(s, s');
    SwitchFrame(s, s');
    FewerEdgesAcyclic(s', s);
  }

  lemma CreateAcyclic(s: State)
    requires Inv(s) && Acyclic(s)
    ensures Create(s).Returns? && Acyclic(Create(s).s)
  {
    CreateWorks(s);
    CreateHeap(s);
    var s', n := Create(s).s, Create(s).v;
    hide Create;
    forall i | Blocked(s', i) ensures Blocked(s, i) && Thread(s', i).joinTo == Thread(s, i).joinTo {
      assert i != n && EdgeOk(s', Thread(s', i).joinTo);
      assert Thread(s', i).joinTo != n;
    }
    FewerEdgesAcyclic(s, s');
  }

  /** wut_create leaves every existing control block alone. */
  lemma CreateHeap(s: State)
    requires Create(s).Returns?
    ensures |Create(s).s.heap| == |s.heap| + 1 && Create(s).s.heap[..|s.heap|] == s.heap
    ensures |Create(s).s.slots| >= |s.slots|
  {
  }

  lemma CancelAcyclic(s: State, id: int)
    requires Inv(s) && Acyclic(s) && CancelOk(s, CallCancel(id)) && !Crashes(s, CallCancel(id))
    ensures Cancel(s, id).Returns? && Acyclic(Cancel(s, id).s)
  {
    if !CancelRefused(s, id) {
      CancelKeepsInvIff(s, id);
      if Blocked(s, id) { BlockedFacts(s, id); }
      CancelEffect(s, id);
      var s' := Cancel(s, id).s;
      hide Cancel;
      CancelledFrame(s, s', id);
      forall i | Blocked(s', i) ensures Blocked(s, i) && Thread(s', i).joinTo == Thread(s, i).joinTo {
        CancelledBlocked(s, s', id, i);
      }
      FewerEdgesAcyclic(s, s');
    }
  }

  // ---- Runs ---------------------------------------------------------------------------

  /** How a run ends: still going, by the last wut_exit, or at a bad pointer. */
  datatype End = Going(s: State) | Ended(last: State) | Broken

  function Run(s: State, p: seq<Call>): End
    decreases |p|
  {
    if p == [] then Going(s) else
    match Step(s, p[0])
    case Returns(s', _) => Run(s', p[1..])
    case Switches(s', _) => Run(s', p[1..])
    case Finished => Ended(s)
    case Crashed => Broken
  }

  lemma RunStep(s: State, c: Call, p: seq<Call>, s': State)
    requires Next(Step(s, c)) == Some(s')
    ensures Run(s, [c] + p) == Run(s', p)
  {
    hide Step;
    assert ([c] + p)[1..] == p;
  }

  lemma RunCrash(s: State, c: Call, p: seq<Call>)
    requires Step(s, c) == Crashed
    ensures Run(s, [c] + p) == Broken
  {
    hide Step;
  }

  /** A run goes on where its first part has led. */
  lemma {:induction false} RunConcat(s: State, p: seq<Call>, s': State, q: seq<Call>)
    requires Run(s, p) == Going(s')
    ensures Run(s, p + q) == Run(s', q)
    decreases |p|
  {
    hide Step, WellFormed;
    if p == [] {
      assert p + q == q;
    } else {
      assert (p + q)[1..] == p[1..] + q;
      RunConcat(Next(Step(s, p[0])).value, p[1..], s', q);
    }
  }

  ghost predicate DisciplinedRun(s: State, p: seq<Call>)
    decreases |p|
  {
    p != [] ==>
      && Disciplined(s, p[0])
      && match Next(Step(s, p[0])) case None => true case Some(s') => DisciplinedRun(s', p[1..])
  }

  /** A disciplined run never crashes, keeps every live thread running, ready or blocked on
      an acyclic chain, and ends only when its last thread exits. */
  lemma {:induction false} RunsAreSafe(s: State, p: seq<Call>)
    requires Inv(s) && Acyclic(s) && DisciplinedRun(s, p)
    ensures match Run(s, p)
      case Going(s') => Inv(s') && Acyclic(s')
      case Ended(last) => Inv(last) && forall i :: Live(last, i) <==> i == last.current
      case Broken => false
    decreases |p|
  {
    hide Inv, Acyclic, Disciplined, Step, Live;
    if p != [] {
      ThreadsRun(s, p[0]);
      match Next(Step(s, p[0]))
      case Some(s') => RunsAreSafe(s', p[1..]);
      case None =>
    }
  }

  lemma ThreadsRun(s: State, c: Call)
    requires Inv(s) && Acyclic(s) && Disciplined(s, c)
    ensures match Step(s, c)
      case Crashed => false
      case Finished => forall i :: Live(s, i) <==> i == s.current
      case o => Inv(o.s) && Acyclic(o.s)
  {
    StepKeepsInv(s, c);
    StepKeepsAcyclic(s, c);
    if c.CallExit? { ExitFinishesIff(s, c.status); }
    hide Acyclic, Disciplined;
  }

  /** The same from the start: wut_init leaves one running thread and no joins. */
  lemma RunsFromInit(p: seq<Call>)
    requires DisciplinedRun(Init(), p)
    ensures match Run(Init(), p)
      case Going(s') => Inv(s') && Acyclic(s')
      case Ended(last) => forall i :: Live(last, i) <==> i == last.current
      case Broken => false
  {
    InitInv();
    assert Ranked(Init(), seq(INITIAL_SLOTS, _ => 0));
    RunsAreSafe(Init(), p);
  }
}
