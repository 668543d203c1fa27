/** The value of wut_join: the status with which its target ended, whatever ran meanwhile. */
module WutStatus {
  import opened Wrappers
  import opened WutThreads
  import opened WutInvariant
  import opened WutCalls
  import opened WutCancel
  import opened WutRuns

  // ---- How a thread ends --------------------------------------------------------------

  /** The status that a call gives to the thread with control block `b`, if it ends it. */
  function Ends(s: State, c: Call, b: nat): Option<int> {
    match c
    case CallExit(status) => if Pointer(s, s.current) == b then Some(LowByte(status)) else None
    case CallCancel(id) =>
      if Occupied(s, id) && Pointer(s, id) == b && !CancelRefused(s, id) then Some(CANCELLED) else None
    case _ => None
  }

  /** The status with which that thread ends in the course of a run. */
  function EndStatus(s: State, p: seq<Call>, b: nat): Option<int>
    decreases |p|
  {
    if p == [] then None
    else if Ends(s, p[0], b).Some? then Ends(s, p[0], b)
    else match Next(Step(s, p[0])) case None => None case Some(s') => EndStatus(s', p[1..], b)
  }

  lemma DispatchStatus(s: State, b: nat)
    requires s.queue != [] && b < |s.heap|
    ensures Dispatch(s).Switches? && b < |Dispatch(s).s.heap| && Dispatch(s).s.heap[b].status == s.heap[b].status
  {
    DispatchSwitches(s);
  }

  lemma CancelStatus(s: State, id: int, b: nat)
    requires b < |s.heap| && Cancel(s, id).Returns?
    ensures var s', e := Cancel(s, id).s, Ends(s, CallCancel(id), b);
      b < |s'.heap| && s'.heap[b].status == if e.Some? then e.value else s.heap[b].status
  {
    hide Mark, LeaveTarget, Remove;
    if !CancelRefused(s, id) {
      MarkStatus(s, id, b);
      if Thread(Mark(s, id), id).block { LeaveStatus(Mark(s, id), id, b); }
    }
  }

  lemma MarkStatus(s: State, id: int, b: nat)
    requires Occupied(s, id) && b < |s.heap|
    ensures Occupied(Mark(s, id), id) && |Mark(s, id).heap| == |s.heap|
    ensures Mark(s, id).heap[b].status == if Pointer(s, id) == b then CANCELLED else s.heap[b].status
  {
  }

  lemma LeaveStatus(s: State, id: int, b: nat)
    requires Occupied(s, id) && Thread(s, id).block && b < |s.heap|
    ensures |LeaveTarget(s, id).heap| == |s.heap| && LeaveTarget(s, id).heap[b].status == s.heap[b].status
  {
  }

  /** A status is written once, by the exit or the cancellation of its thread. */
  lemma StatusIsFinal(s: State, c: Call, b: nat)
    requires b < |s.heap| && Next(Step(s, c)).Some?
    ensures var s', e := Next(Step(s, c)).value, Ends(s, c, b);
      && b < |s'.heap|
      && s'.heap[b].status == if s.heap[b].status == RUNNING && e.Some? then e.value else s.heap[b].status
  {
    hide Dispatch;
    match c
    case CallCreate => if Create(s).Returns? { CreateHeap(s); }
    case CallCancel(id) => CancelStatus(s, id, b);
    case CallJoin(id) =>
      if !JoinRefused(s, id) && s.slots[id].Some? && !JoinReturnsAtOnce(s, id) && s.queue != [] {
        DispatchStatus(Block(s, id), b);
      }
    case CallYield => if s.queue != [] { DispatchStatus(Enqueue(s, s.current), b); }
    case CallExit(status) => if Terminate(s, status).queue != [] { DispatchStatus(Terminate(s, status), b); }
  }

  /** A block that a call allocates belongs to a live thread. */
  lemma NewBlockRuns(s: State, c: Call, b: nat)
    requires Next(Step(s, c)).Some? && |s.heap| <= b < |Next(Step(s, c)).value.heap|
    ensures Next(Step(s, c)).value.heap[b].status == RUNNING && Ends(s, c, b).None?
  {
    hide Dispatch;
    match c
    case CallCreate => CreateHeap(s);
    case CallCancel(id) => CancelHeap(s, id);
    case CallJoin(id) =>
      if !JoinRefused(s, id) && s.slots[id].Some? && !JoinReturnsAtOnce(s, id) { DispatchSwitches(Block(s, id)); }
    case CallYield => if s.queue != [] { DispatchSwitches(Enqueue(s, s.current)); }
    case CallExit(status) => DispatchSwitches(Terminate(s, status));
  }

  lemma CancelHeap(s: State, id: int)
    requires Cancel(s, id).Returns?
    ensures |Cancel(s, id).s.heap| == |s.heap|
  {
  }

  /** After any run, a block that was live or not there yet holds the status its thread ended
      with in that run, if it did. */
  lemma {:induction false} StatusAfterRun(s: State, p: seq<Call>, b: nat)
    requires (b < |s.heap| ==> s.heap[b].status == RUNNING) && Run(s, p).Going?
    ensures var s', e := Run(s, p).s, EndStatus(s, p, b);
      && |s'.heap| >= |s.heap| && (e.Some? ==> b < |s'.heap|)
      && (b < |s'.heap| ==> s'.heap[b].status == if e.Some? then e.value else RUNNING)
      && (e.Some? ==> e.value != RUNNING)
    decreases |p|
  {
    hide Step, Ends, WellFormed;
    if p != [] {
      var s' := Next(Step(s, p[0])).value;
      HeapGrows(s, p[0]);
      EndsAreNotRunning(s, p[0], b);
      if b < |s.heap| {
        StatusIsFinal(s, p[0], b);
      } else {
        if b < |s'.heap| { NewBlockRuns(s, p[0], b); }
        NotThereYet(s, p[0], b);
      }
      if Ends(s, p[0], b).Some? { StatusStays(s', p[1..], b); } else { StatusAfterRun(s', p[1..], b); }
    }
  }

  lemma NotThereYet(s: State, c: Call, b: nat)
    requires b >= |s.heap|
    ensures Ends(s, c, b).None?
  {
  }

  lemma HeapGrows(s: State, c: Call)
    requires Next(Step(s, c)).Some?
    ensures |Next(Step(s, c)).value.heap| >= |s.heap|
  {
    if |s.heap| > 0 { StatusIsFinal(s, c, |s.heap| - 1); }
    hide Step;
  }

  lemma EndsAreNotRunning(s: State, c: Call, b: nat)
    ensures Ends(s, c, b).Some? ==> 0 <= Ends(s, c, b).value < 256
  {
  }

  lemma {:induction false} StatusStays(s: State, p: seq<Call>, b: nat)
    requires b < |s.heap| && s.heap[b].status != RUNNING && Run(s, p).Going?
    ensures |Run(s, p).s.heap| >= |s.heap|
    ensures b < |Run(s, p).s.heap| && Run(s, p).s.heap[b].status == s.heap[b].status
    decreases |p|
  {
    hide Step, Ends, WellFormed;
    if p != [] {
      HeapGrows(s, p[0]);
      StatusIsFinal(s, p[0], b);
      StatusStays(Next(Step(s, p[0])).value, p[1..], b);
    }
  }

  ghost predicate SoundRun(s: State, p: seq<Call>)
    decreases |p|
  {
    p != [] ==>
      && CancelOk(s, p[0])
      && match Next(Step(s, p[0])) case None => true case Some(s') => SoundRun(s', p[1..])
  }

  /** wut_exit leaves the low byte of its argument as the status of its thread. */
  lemma ExitedStatus(s: State, status: int)
    requires Inv(s) && Exit(s, status).Switches?
    ensures var s', b := Exit(s, status).s, Pointer(s, s.current);
      b < |s'.heap| && 0 <= s'.heap[b].status < 256 && (status - s'.heap[b].status) % 256 == 0
  {
    StatusIsFinal(s, CallExit(status), Pointer(s, s.current));
    hide Exit, Dispatch;
  }

  /** A cancelled thread has the status 128, and that is what a later wut_join returns. */
  lemma CancelledStatus(s: State, id: int)
    requires Inv(s) && Live(s, id) && id != s.current && Cancel(s, id).Returns?
    ensures var s' := Cancel(s, id).s;
      && Pointer(s, id) < |s'.heap| && s'.heap[Pointer(s, id)].status == 128
      && Join(s', id) == Returns(s', 128)
  {
    CancelStatus(s, id, Pointer(s, id));
    CancelKeepsSlots(s, id);
    hide Cancel;
  }

  lemma CancelKeepsSlots(s: State, id: int)
    requires Cancel(s, id).Returns?
    ensures var s' := Cancel(s, id).s;
      s'.slots == s.slots && s'.threadNum == s.threadNum && s'.current == s.current
  {
  }

  /** A thread that has ended keeps its status, and as long as its slot is not reused, every
      wut_join on it returns that status: after a cancellation, 128. */
  lemma EndedStatusIsReported(s: State, id: int, p: seq<Call>)
    requires Inv(s) && Occupied(s, id) && Thread(s, id).status != -1
    requires Run(s, p).Going? && Inv(Run(s, p).s)
    requires var s' := Run(s, p).s; Occupied(s', id) && Pointer(s', id) == Pointer(s, id) && id != s'.current
    ensures Join(Run(s, p).s, id) == Returns(Run(s, p).s, Thread(s, id).status)
  {
    StatusStays(s, p, Pointer(s, id));
    hide Run;
  }

  /** Why a thread has ended in the course of a run: at some moment it called wut_exit, and
      its status is the low byte of the argument, or another thread cancelled it, and its
      status is 128. */
  lemma {:induction false} EndStatusCause(s: State, p: seq<Call>, b: nat) returns (k: nat, now: State)
    requires Inv(s) && SoundRun(s, p) && EndStatus(s, p, b).Some?
    ensures k < |p| && Run(s, p[..k]) == Going(now) && Inv(now)
    ensures var v := EndStatus(s, p, b).value;
      || (p[k].CallExit? && Pointer(now, now.current) == b && 0 <= v < 256 && (p[k].status - v) % 256 == 0)
      || (p[k].CallCancel? && Live(now, p[k].id) && p[k].id != now.current && Pointer(now, p[k].id) == b && v == 128)
    decreases |p|
  {
    hide Step, Ends, WellFormed, Inv, CancelOk, Live;
    if Ends(s, p[0], b).Some? {
      k, now := 0, s;
      assert p[..0] == [];
      EndsCause(s, p[0], b);
    } else {
      var s' := Next(Step(s, p[0])).value;
      StepKeepsInv(s, p[0]);
      k, now := EndStatusCause(s', p[1..], b);
      assert p[..k + 1] == [p[0]] + p[1..][..k];
      RunStep(s, p[0], p[1..][..k], s');
      k := k + 1;
    }
  }

  lemma EndsCause(s: State, c: Call, b: nat)
    requires Inv(s) && Ends(s, c, b).Some?
    ensures var v := Ends(s, c, b).value;
      || (c.CallExit? && Pointer(s, s.current) == b && 0 <= v < 256 && (c.status - v) % 256 == 0)
      || (c.CallCancel? && Live(s, c.id) && c.id != s.current && Pointer(s, c.id) == b && v == 128)
  {
  }

  // ---- Inside wut_join ----------------------------------------------------------------

  /** Thread `x` is suspended inside a wut_join on the thread with control block `b`. */
  predicate Inside(s: State, x: int, b: nat) {
    Live(s, x) && x != s.current && Thread(s, x).place == InsideJoin(b)
  }

  /** While `x` is inside wut_join, the slot of its target is not reused. */
  lemma SlotIsKept(s: State, x: int, b: nat)
    requires Inv(s) && Inside(s, x, b)
    ensures b < |s.heap| && Occupied(s, s.heap[b].id) && Pointer(s, s.heap[b].id) == b
    ensures Create(s).Returns? && Create(s).v != s.heap[b].id
  {
    assert PlaceOk(s, x);
    CreateWorks(s);
  }

  lemma SwitchInside(s: State, x: int, b: nat)
    requires Suspended(s) && s.queue != [] && Live(s, x) && Thread(s, x).place == InsideJoin(b)
    ensures Dispatch(s).Switches? && b < |s.heap|
    ensures if Dispatch(s).s.current == x
      then Dispatch(s).status == Some(s.heap[b].status) && s.heap[b].status != RUNNING
      else Inside(Dispatch(s).s, x, b)
  {
    DispatchSwitches(s);
    var s' := Dispatch(s).s;
    assert PlaceOk(s, x);
    if s.heap[b].status == RUNNING {
      assert EdgeOk(s, s.heap[b].id);
    } else if s'.current != x {
      SwitchFrame(s, s');
      assert Thread(s, x).id == x && Thread(s, s'.current).id == s'.current;
    }
    hide Dispatch, Blocked;
  }

  /** A thread inside wut_join stays there until it is switched to, and then its join returns
      the status of its target, which has ended. */
  lemma InsideStep(s: State, c: Call, x: int, b: nat)
    requires Inv(s) && CancelOk(s, c) && Inside(s, x, b) && c != CallCancel(x) && Next(Step(s, c)).Some?
    ensures var s' := Next(Step(s, c)).value;
      if Step(s, c).Switches? && s'.current == x
      then b < |s'.heap| && Step(s, c).status == Some(s'.heap[b].status) && s'.heap[b].status != RUNNING
      else Inside(s', x, b)
  {
    hide Dispatch;
    assert PlaceOk(s, x);
    match c
    case CallCreate => CreateInside(s, x, b);
    case CallCancel(id) => CancelInside(s, id, x, b);
    case CallJoin(id) =>
      if !JoinRefused(s, id) && !JoinReturnsAtOnce(s, id) {
        BlockSuspends(s, id);
        BlockInside(s, id, x, b);
        SwitchInside(Block(s, id), x, b);
        DispatchStatus(Block(s, id), b);
      }
    case CallYield =>
      if s.queue != [] {
        YieldSuspends(s);
        SwitchInside(Enqueue(s, s.current), x, b);
        DispatchStatus(Enqueue(s, s.current), b);
      }
    case CallExit(status) =>
      TerminateSuspends(s, status);
      TerminatedFrame(s, Terminate(s, status), status);
      SwitchInside(Terminate(s, status), x, b);
      DispatchStatus(Terminate(s, status), b);
  }

  lemma CreateInside(s: State, x: int, b: nat)
    requires Inv(s) && Inside(s, x, b)
    ensures Create(s).Returns? && Inside(Create(s).s, x, b)
  {
    CreateWorks(s);
    CreateHeap(s);
    hide Create;
  }

  lemma CancelInside(s: State, id: int, x: int, b: nat)
    requires Inv(s) && CancelOk(s, CallCancel(id)) && Inside(s, x, b) && id != x && Cancel(s, id).Returns?
    ensures Inside(Cancel(s, id).s, x, b)
  {
    if !CancelRefused(s, id) {
      if Blocked(s, id) { BlockedFacts(s, id); }
      CancelEffect(s, id);
      CancelledFrame(s, Cancel(s, id).s, id);
    }
    hide Cancel;
  }

  lemma BlockInside(s: State, id: int, x: int, b: nat)
    requires MayBlock(s, id) && Inside(s, x, b)
    ensures Live(Block(s, id), x) && Thread(Block(s, id), x).place == InsideJoin(b)
  {
    BlockEffect(s, id);
    BlockedFrame(s, Block(s, id), id);
    hide Block;
  }

  // ---- Runs ---------------------------------------------------------------------------

  /** The value with which the wut_join of thread `x` returns, once it does. */
  function JoinReply(s: State, p: seq<Call>, x: int): Option<Option<int>>
    decreases |p|
  {
    if p == [] then None else
    match Step(s, p[0])
    case Returns(s', _) => JoinReply(s', p[1..], x)
    case Switches(s', v) => if s'.current == x then Some(v) else JoinReply(s', p[1..], x)
    case _ => None
  }

  /** The status of the thread of block `b`, now or when it ends. */
  function Verdict(s: State, p: seq<Call>, b: nat): Option<int> {
    if b < |s.heap| && s.heap[b].status != RUNNING then Some(s.heap[b].status) else EndStatus(s, p, b)
  }

  lemma {:induction false} ReplyIsVerdict(s: State, p: seq<Call>, x: int, b: nat)
    requires Inv(s) && Inside(s, x, b) && SoundRun(s, p) && CallCancel(x) !in p
    ensures JoinReply(s, p, x).Some? ==> Verdict(s, p, b).Some? && JoinReply(s, p, x) == Some(Verdict(s, p, b))
    decreases |p|
  {
    hide Step, Ends, WellFormed, Inv, Inside, CancelOk;
    if p != [] {
      SlotIsKept(s, x, b);
      StepKeepsInv(s, p[0]);
      match Next(Step(s, p[0]))
      case None =>
      case Some(s') =>
        StatusIsFinal(s, p[0], b);
        EndsAreNotRunning(s, p[0], b);
        InsideStep(s, p[0], x, b);
        if !(Step(s, p[0]).Switches? && s'.current == x) { ReplyIsVerdict(s', p[1..], x, b); }
    }
  }

  /** A wut_join that blocks returns, if it returns, the status with which its target ended
      since: the low byte of its exit argument, or 128 if it was cancelled. */
  lemma JoinReturnsEndStatus(s: State, id: int, p: seq<Call>)
    requires MayBlock(s, id) && Join(s, id).Switches?
    requires SoundRun(Join(s, id).s, p) && CallCancel(s.current) !in p
    ensures var s1, x := Join(s, id).s, s.current;
      && Inside(s1, x, Pointer(s, id))
      && (JoinReply(s1, p, x).Some? ==>
           JoinReply(s1, p, x) == Some(EndStatus(s1, p, Pointer(s, id))) && EndStatus(s1, p, Pointer(s, id)).Some?)
  {
    JoinSuspendsCaller(s, id);
    var s1 := Join(s, id).s;
    hide Join;
    ReplyIsVerdict(s1, p, s.current, Pointer(s, id));
  }

  /** The value that a blocking wut_join returns, and why: at some moment since, its target
      called wut_exit with an argument that has this low byte, or another thread cancelled it,
      and the value is 128. */
  lemma JoinReportsCause(s: State, id: int, p: seq<Call>) returns (k: nat, now: State)
    requires MayBlock(s, id) && Join(s, id).Switches?
    requires SoundRun(Join(s, id).s, p) && CallCancel(s.current) !in p
    requires JoinReply(Join(s, id).s, p, s.current).Some?
    ensures k < |p| && Run(Join(s, id).s, p[..k]) == Going(now) && Inv(now)
    ensures JoinReply(Join(s, id).s, p, s.current).value.Some?
    ensures var v, b := JoinReply(Join(s, id).s, p, s.current).value.value, Pointer(s, id);
      || (p[k].CallExit? && Pointer(now, now.current) == b && 0 <= v < 256 && (p[k].status - v) % 256 == 0)
      || (p[k].CallCancel? && Live(now, p[k].id) && p[k].id != now.current && Pointer(now, p[k].id) == b && v == 128)
  {
    hide Join, Inv, Inside, JoinReply, EndStatus, SoundRun, Run;
    JoinSuspendsCaller(s, id);
    JoinReturnsEndStatus(s, id, p);
    var s1 := Join(s, id).s;
    k, now := EndStatusCause(s1, p, Pointer(s, id));
  }

  lemma JoinSuspendsCaller(s: State, id: int)
    requires MayBlock(s, id) && Join(s, id).Switches?
    ensures Inv(Join(s, id).s) && Inside(Join(s, id).s, s.current, Pointer(s, id))
    ensures Pointer(s, id) < |Join(s, id).s.heap| && Join(s, id).s.heap[Pointer(s, id)].status == RUNNING
  {
    BlockSuspends(s, id);
    var s1 := Block(s, id);
    hide Block, Dispatch;
    BlockedFrame(s, s1, id);
    assert Thread(s, id).id == id && Thread(s, s.current).id == s.current;
    SwitchKeeps(s1);
    DispatchStatus(s1, Pointer(s, id));
    SwitchInside(s1, s.current, Pointer(s, id));
  }
}
