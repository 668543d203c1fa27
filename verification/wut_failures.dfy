/** Short programs, run from wut_init, on which the scheduler goes wrong. */
module WutFailures {
  import opened Wrappers
  import opened WutThreads
  import opened WutInvariant
  import opened WutCalls
  import opened WutCancel
  import opened WutRuns
  import opened WutStatus
  import opened WutSlots

  /** The state after wut_init and `n` calls of wut_create. */
  function Started(n: nat): State
    requires n < INITIAL_SLOTS
  {
    var r := Threads(seq(n + 1, i requires 0 <= i => NewTcb(i)),
                     seq(INITIAL_SLOTS, i requires 0 <= i => if i <= n then Some(i) else None),
                     seq(n, i requires 0 <= i => i + 1), n + 1, 0);
    assert forall i :: 0 <= i <= n ==> Occupied(r, i);
    r
  }

  lemma StartedCreate(n: nat)
    requires n + 1 < INITIAL_SLOTS
    ensures Create(Started(n)) == Returns(Started(n + 1), n + 1)
  {
    var s := Started(n);
    FindsFirstFree(s, 0, n + 1);
    var s' := Enqueue(Install(s, n + 1), n + 1);
    var r := Started(n + 1);
    assert s'.heap == r.heap && s'.slots == r.slots && s'.queue == r.queue;
  }

  lemma {:induction false} FindsFirstFree(s: State, i: nat, k: nat)
    requires i <= k < |s.slots| && Available(s, k) && forall j :: i <= j < k ==> !Available(s, j)
    ensures FindSlot(s, i) == Some(k)
    decreases k - i
  {
    if i < k {
      assert !Available(s, i);
      FindsFirstFree(s, i + 1, k);
    }
  }

  lemma StartedFromInit()
    ensures Started(0) == Init()
  {
    assert Started(0).heap == Init().heap && Started(0).slots == Init().slots && Started(0).queue == Init().queue;
  }

  function Creates(n: nat): seq<Call> { seq(n, _ => CallCreate) }

  /** Up to the first resize, wut_create fills the slots in order. */
  lemma {:induction false} StartedIsReached(n: nat)
    requires n < INITIAL_SLOTS
    ensures Run(Init(), Creates(n)) == Going(Started(n))
    decreases n
  {
    hide Started, Step;
    if n == 0 {
      StartedFromInit();
    } else {
      StartedIsReached(n - 1);
      StartedCreate(n - 1);
      StepCreates(n - 1);
      assert Creates(n) == Creates(n - 1) + [CallCreate];
      RunConcat(Init(), Creates(n - 1), Started(n - 1), [CallCreate]);
      RunOne(Started(n - 1), CallCreate, Started(n));
    }
  }

  lemma StepCreates(n: nat)
    requires n + 1 < INITIAL_SLOTS
    ensures Next(Step(Started(n), CallCreate)) == Some(Started(n + 1))
  {
    hide Started, Create;
    StartedCreate(n);
  }

  // ---- Short runs ---------------------------------------------------------------------

  lemma RunOne(s: State, c: Call, s': State)
    requires Next(Step(s, c)) == Some(s')
    ensures Run(s, [c]) == Going(s')
  {
    RunStep(s, c, [], s');
    hide Step;
    assert [c] + [] == [c];
  }

  lemma RunTwo(s: State, c1: Call, s1: State, c2: Call, s2: State)
    requires Next(Step(s, c1)) == Some(s1) && Next(Step(s1, c2)) == Some(s2)
    ensures Run(s, [c1, c2]) == Going(s2)
  {
    RunStep(s, c1, [c2], s1);
    RunOne(s1, c2, s2);
    hide Step;
    assert [c1] + [c2] == [c1, c2];
  }

  lemma RunThree(s: State, c1: Call, s1: State, c2: Call, s2: State, c3: Call, s3: State)
    requires Next(Step(s, c1)) == Some(s1) && Next(Step(s1, c2)) == Some(s2) && Next(Step(s2, c3)) == Some(s3)
    ensures Run(s, [c1, c2, c3]) == Going(s3)
  {
    RunStep(s, c1, [c2, c3], s1);
    RunTwo(s1, c2, s2, c3, s3);
    hide Step;
    assert [c1] + [c2, c3] == [c1, c2, c3];
  }

  /** A run that starts with `n` creations. */
  lemma FromInit(n: nat, p: seq<Call>)
    requires n < INITIAL_SLOTS
    ensures Run(Init(), Creates(n) + p) == Run(Started(n), p)
  {
    StartedIsReached(n);
    RunConcat(Init(), Creates(n), Started(n), p);
    hide Run, Started, Init;
  }

  /** The same, followed by one call that crashes. */
  lemma FromInitCrash(n: nat, p: seq<Call>, s': State, c: Call)
    requires n < INITIAL_SLOTS && Run(Started(n), p) == Going(s') && Step(s', c) == Crashed
    ensures Run(Init(), Creates(n) + p + [c]) == Broken
  {
    hide Started, Init, Step;
    FromInit(n, p + [c]);
    assert Creates(n) + p + [c] == Creates(n) + (p + [c]);
    RunConcat(Started(n), p, s', [c]);
    RunCrash(s', c, []);
    assert [c] + [] == [c];
  }

  lemma StartedInv(n: nat)
    requires n < 4
    ensures Inv(Started(n))
    decreases n
  {
    if n == 0 {
      StartedFromInit();
      InitInv();
    } else {
      StartedInv(n - 1);
      StartedCreate(n - 1);
      CreateWorks(Started(n - 1));
    }
    hide Inv, Started, Create;
  }

  /** Thread 0 has joined thread 1, which runs. */
  function FirstJoin(n: nat): State
    requires 1 <= n < INITIAL_SLOTS
  {
    DispatchSwitches(Block(Started(n), 1));
    Dispatch(Block(Started(n), 1)).s
  }

  lemma StartedFacts(n: nat)
    requires n < INITIAL_SLOTS
    ensures var s := Started(n);
      && s.current == 0 && s.threadNum == n + 1 && s.queue == seq(n, i requires 0 <= i => i + 1)
      && |s.heap| == n + 1
      && (forall i :: 0 <= i <= n ==> Occupied(s, i) && Pointer(s, i) == i && s.heap[i] == NewTcb(i))
      && |s.slots| == INITIAL_SLOTS && (forall i :: n < i < INITIAL_SLOTS ==> s.slots[i].None?)
  {
  }

  /** A join that blocks, and an exit of a thread that nobody or somebody waits for: the
      control blocks afterwards. */
  lemma JoinEffect(s: State, id: int)
    requires !JoinRefused(s, id) && Occupied(s, id) && !JoinReturnsAtOnce(s, id) && s.queue != []
    ensures BlockedOn(s, Block(s, id), id) && Block(s, id).queue == s.queue
    ensures Switched(Block(s, id), Dispatch(Block(s, id)).s)
    ensures Join(s, id) == Dispatch(Block(s, id)) && Join(s, id).Switches?
  {
    BlockEffect(s, id);
    DispatchSwitches(Block(s, id));
    hide Block, Dispatch;
  }

  lemma ExitEffect(s: State, status: int)
    requires Live(s, s.current) && (s.queue != [] || Thread(s, s.current).join)
    ensures Terminated(s, Terminate(s, status), status) && Terminate(s, status).queue != []
    ensures Switched(Terminate(s, status), Dispatch(Terminate(s, status)).s)
    ensures Exit(s, status) == Dispatch(Terminate(s, status)) && Exit(s, status).Switches?
  {
    TerminateEffect(s, status);
    DispatchSwitches(Terminate(s, status));
    hide Terminate, Dispatch;
  }

  lemma FirstJoinFacts(n: nat)
    requires 1 <= n < 4
    ensures Join(Started(n), 1) == Switches(FirstJoin(n), None) && Inv(FirstJoin(n))
    ensures var s := FirstJoin(n);
      && s.current == 1 && s.threadNum == n + 1 && s.queue == seq(n - 1, i requires 0 <= i => i + 2)
      && |s.heap| == n + 1 && (forall i :: 0 <= i <= n ==> Occupied(s, i) && Pointer(s, i) == i)
      && |s.slots| == INITIAL_SLOTS && (forall i :: n < i < INITIAL_SLOTS ==> s.slots[i].None?)
      && s.heap[0] == NewTcb(0).(block := true, joinTo := 1, place := InsideJoin(1))
      && s.heap[1] == NewTcb(1).(join := true, enable := false, joinFrom := 0)
      && (forall i :: 2 <= i <= n ==> s.heap[i] == NewTcb(i))
  {
    hide Started, Inv, Block, Dispatch, Blocked;
    StartedInv(n);
    StartedFacts(n);
    var s := Started(n);
    StepKeepsInv(s, CallJoin(1));
    JoinEffect(s, 1);
    NewThreadsElsewhere(s, Block(s, 1));
    var s' := FirstJoin(n);
    forall i | 0 <= i <= n ensures Occupied(s', i) && Pointer(s', i) == i {
      assert Occupied(s, i) && Pointer(s, i) == i;
    }
  }

  lemma NewThreadsElsewhere(s: State, s1: State)
    requires s.queue != [] && s.queue[0] == 1
    requires Occupied(s, 0) && Occupied(s, 1) && Pointer(s, 1) == 1 && Pointer(s, 0) == 0
    requires BlockedOn(s, s1, 1) && s.current == 0 && s.heap[1] == NewTcb(1)
    ensures s1.queue != [] && Dispatch(s1).Switches? && Dispatch(s1).status == None
  {
    DispatchSwitches(s1);
    hide Dispatch;
  }

  // ---- Bad pointers -------------------------------------------------------------------

  /** wut_cancel reads one slot past a full table. */
  lemma CancelPastTableCrashes()
    ensures Run(Init(), Creates(255) + [CallCancel(256)]) == Broken
  {
    StartedFacts(255);
    assert Cancel(Started(255), 256) == Crashed;
    hide Run, Started, Init, Cancel;
    assert Run(Started(255), []) == Going(Started(255)) by { RunNothing(Started(255)); }
    FromInitCrash(255, [], Started(255), CallCancel(256));
    assert Creates(255) + [] + [CallCancel(256)] == Creates(255) + [CallCancel(256)];
  }

  lemma RunNothing(s: State)
    ensures Run(s, []) == Going(s)
  {
  }

  /** Two threads that join each other stop the process: the second join finds no ready
      thread and follows a null pointer. */
  lemma MutualJoinCrashes()
    ensures Run(Init(), Creates(1) + [CallJoin(1)] + [CallJoin(0)]) == Broken
  {
    hide Started, FirstJoin, Init, Inv;
    FirstJoinFacts(1);
    var s1 := FirstJoin(1);
    assert Join(s1, 0) == Crashed;
    RunOne(Started(1), CallJoin(1), s1);
    FromInitCrash(1, [CallJoin(1)], s1, CallJoin(0));
  }

  /** A slot below the number of creations that was never filled: wut_join follows its null
      pointer. */
  lemma JoinOfEmptySlotCrashes()
    ensures Run(Init(), Creates(1) + [CallJoin(1), CallExit(0), CallCreate] + [CallJoin(2)]) == Broken
  {
    hide FirstJoin, Started, Init, Inv, Terminate, Dispatch, Create, Join, Run;
    FirstJoinFacts(1);
    var s1 := FirstJoin(1);
    ExitEffect(s1, 0);
    var s2 := Exit(s1, 0).s;
    assert s2.current == 0 && s2.slots == s1.slots && s2.threadNum == 2 && s2.heap[1].enable && s2.heap[1].status == 0;
    CreateReuses(s2);
    RunThree(Started(1), CallJoin(1), s1, CallExit(0), s2, CallCreate, Create(s2).s);
    FromInitCrash(1, [CallJoin(1), CallExit(0), CallCreate], Create(s2).s, CallJoin(2));
  }

  lemma CreateReuses(s: State)
    requires s.current == 0 && Live(s, 0) && s.threadNum == 2 < |s.slots| && s.slots[2].None?
    requires Occupied(s, 1) && Thread(s, 1).status != RUNNING && Thread(s, 1).enable
    ensures Create(s).Returns? && Create(s).v == 1 && Join(Create(s).s, 2) == Crashed
  {
    FindsFirstFree(s, 0, 1);
  }

  // ---- Unsound cancellations ----------------------------------------------------------

  /** A call that may cancel a thread, at the end of a run that keeps the invariant. */
  ghost predicate CancelBreaks(p: seq<Call>, id: int) {
    && Run(Init(), p).Going? && Inv(Run(Init(), p).s) && Cancel(Run(Init(), p).s, id).Returns?
    && Cancel(Run(Init(), p).s, id).v == 0 && !Inv(Cancel(Run(Init(), p).s, id).s)
  }

  /** A thread that was once woken by an exit, and is then cancelled while it is ready, stays
      in the queue as a dead thread. */
  lemma CancelAfterJoinBreaks()
    ensures CancelBreaks(Creates(2) + [CallJoin(1), CallExit(5)], 0)
  {
    hide FirstJoin, Started, Init, Inv, Cancel, Exit, Join, Run;
    FirstJoinFacts(2);
    var s1 := FirstJoin(2);
    TargetExits(s1);
    var s := Exit(s1, 5).s;
    DeadTarget(s, 0);
    CancelKeepsInvIff(s, 0);
    RunTwo(Started(2), CallJoin(1), s1, CallExit(5), s);
    FromInit(2, [CallJoin(1), CallExit(5)]);
  }

  lemma TargetExits(s: State)
    requires s == FirstJoin(2)
    ensures Exit(s, 5).Switches?
    ensures var s' := Exit(s, 5).s;
      && Inv(s') && s'.current == 2 && s'.slots == s.slots && |s'.heap| == 3 && s'.threadNum == 3
      && s'.heap[0] == s.heap[0] && s'.heap[1].status == 5
  {
    hide FirstJoin, Inv, Blocked, Terminate, Dispatch;
    FirstJoinFacts(2);
    ExitEffect(s, 5);
    StepKeepsInv(s, CallExit(5));
  }

  lemma DeadTarget(s: State, i: int)
    requires Occupied(s, i) && !Live(s, Thread(s, i).joinTo)
    ensures !Blocked(s, i)
  {
  }

  /** A cancelled thread whose waiter is waited on: the thread at the end of that chain is
      live but will never run again. */
  lemma CancelInChainBreaks()
    ensures CancelBreaks(Creates(3) + [CallJoin(1), CallJoin(2), CallYield], 2)
  {
    hide FirstJoin, Started, Init, Inv, Cancel, Join, Yield, Run, CancelBreaks;
    FirstJoinFacts(3);
    ChainFacts();
    var s1 := FirstJoin(3);
    var s2 := Join(s1, 2).s;
    CancelAfterYield(s2);
    RunThree(Started(3), CallJoin(1), s1, CallJoin(2), s2, CallYield, Yield(s2).s);
    FromInit(3, [CallJoin(1), CallJoin(2), CallYield]);
    CancelBreaksAt(Creates(3) + [CallJoin(1), CallJoin(2), CallYield], Yield(s2).s, 2);
  }

  lemma CancelBreaksAt(p: seq<Call>, s: State, id: int)
    requires Run(Init(), p) == Going(s) && Inv(s) && Cancel(s, id).Returns? && Cancel(s, id).v == 0
      && !Inv(Cancel(s, id).s)
    ensures CancelBreaks(p, id)
  {
    hide Run, Init, Inv, Cancel;
  }

  /** Thread 0 waits for thread 1, which waits for thread 2. */
  lemma ChainFacts()
    ensures Join(FirstJoin(3), 2).Switches?
    ensures var s := Join(FirstJoin(3), 2).s;
      && Inv(s) && s.current == 2 && s.queue == [3] && s.threadNum == 4
      && (forall i :: 0 <= i <= 3 ==> Occupied(s, i) && Pointer(s, i) == i)
      && |s.heap| == 4 && s.heap[1].join && s.heap[1].joinFrom == 0
      && s.heap[2].joinFrom == 1 && s.heap[2].status == RUNNING && s.heap[3] == NewTcb(3)
  {
    hide FirstJoin, Started, Inv, Blocked, Block, Dispatch;
    FirstJoinFacts(3);
    var s1 := FirstJoin(3);
    assert s1.queue[0] == 2 && s1.queue[1] == 3;
    JoinEffect(s1, 2);
    StepKeepsInv(s1, CallJoin(2));
    var s := Join(s1, 2).s;
    forall i | 0 <= i <= 3 ensures Occupied(s, i) && Pointer(s, i) == i {
      assert Occupied(s1, i) && Pointer(s1, i) == i;
    }
  }

  lemma CancelAfterYield(s: State)
    requires Inv(s) && s.current == 2 && s.queue == [3] && s.threadNum > 2
    requires forall i :: 0 <= i <= 3 ==> Occupied(s, i) && Pointer(s, i) == i
    requires |s.heap| == 4 && s.heap[1].join && s.heap[1].joinFrom == 0
    requires s.heap[2].joinFrom == 1 && s.heap[2].status == RUNNING && s.heap[3] == NewTcb(3)
    ensures Yield(s).Switches?
    ensures var s' := Yield(s).s; Inv(s') && Cancel(s', 2).Returns? && Cancel(s', 2).v == 0 && !Inv(Cancel(s', 2).s)
  {
    hide Inv, Cancel, Blocked, Dispatch;
    DispatchSwitches(Enqueue(s, 2));
    StepKeepsInv(s, CallYield);
    CancelKeepsInvIff(Yield(s).s, 2);
  }

  // ---- Lost slots ---------------------------------------------------------------------

  /** Thread 0 is cancelled while it waits for thread 1, which then ends: slot 1 is lost. */
  lemma CancelOfBlockedLosesSlot()
    ensures Run(Init(), Creates(2) + [CallJoin(1), CallCancel(0), CallExit(5)]).Going?
    ensures Lost(Run(Init(), Creates(2) + [CallJoin(1), CallCancel(0), CallExit(5)]).s, 1)
  {
    hide FirstJoin, Started, Init, Inv, Lost, Orphan, Cancel, Exit, Join, Run;
    FirstJoinFacts(2);
    var s1 := FirstJoin(2);
    WaiterDropped(s1);
    var s2 := Cancel(s1, 0).s;
    OrphanExits(s2);
    RunThree(Started(2), CallJoin(1), s1, CallCancel(0), s2, CallExit(5), Exit(s2, 5).s);
    FromInit(2, [CallJoin(1), CallCancel(0), CallExit(5)]);
  }

  lemma WaiterDropped(s: State)
    requires s == FirstJoin(2)
    ensures Cancel(s, 0).Returns?
    ensures var s' := Cancel(s, 0).s;
      && Inv(s') && Orphan(s', 1) && Live(s', 1) && s'.current == 1 && s'.queue == [2] && s'.slots == s.slots
  {
    hide FirstJoin, Inv, Orphan, Cancel;
    FirstJoinFacts(2);
    assert Occupied(s, 0) && Occupied(s, 1);
    assert Live(s, 0) && Blocked(s, 0) && CancelIsSound(s, 0);
    CancelKeepsInvIff(s, 0);
    CancelEffect(s, 0);
    CancelOrphansIff(s, 0, 1);
    assert AfterCancel(s, 0, 1).status == RUNNING;
  }

  lemma OrphanExits(s: State)
    requires Inv(s) && Orphan(s, 1) && Live(s, 1) && s.current == 1 && s.queue == [2] && Pointer(s, 1) == 1
    ensures Exit(s, 5).Switches? && Lost(Exit(s, 5).s, 1)
  {
    hide Inv, Orphan, Dispatch, Terminate;
    ExitEffect(s, 5);
    OrphanStepIff(s, CallExit(5), 1);
    StatusIsFinal(s, CallExit(5), 1);
  }

  /** Thread 0 waits for thread 1, which is cancelled; before thread 0 runs again, it is
      cancelled too: slot 1 is lost at once, although nobody was blocked. */
  lemma CancelOfReadyLosesSlot()
    ensures Run(Init(), Creates(2) + [CallJoin(1), CallYield] + [CallCancel(1), CallCancel(0)]).Going?
    ensures Lost(Run(Init(), Creates(2) + [CallJoin(1), CallYield] + [CallCancel(1), CallCancel(0)]).s, 1)
  {
    hide FirstJoin, Started, Init, Inv, Lost, Orphan, Cancel, Yield, Join, Run;
    FirstJoinFacts(2);
    var s1 := FirstJoin(2);
    TargetYields(s1);
    var s2 := Yield(s1).s;
    TargetCancelled(s2);
    var s3 := Cancel(s2, 1).s;
    ReleasedDropped(s3);
    var s4 := Cancel(s3, 0).s;
    RunTwo(Started(2), CallJoin(1), s1, CallYield, s2);
    FromInit(2, [CallJoin(1), CallYield]);
    RunTwo(s2, CallCancel(1), s3, CallCancel(0), s4);
    RunConcat(Init(), Creates(2) + [CallJoin(1), CallYield], s2, [CallCancel(1), CallCancel(0)]);
  }

  lemma TargetYields(s: State)
    requires s == FirstJoin(2)
    ensures Yield(s).Switches?
    ensures var s' := Yield(s).s;
      && Inv(s') && s'.current == 2 && s'.queue == [1] && s'.slots == s.slots && |s'.heap| == 3 && s'.threadNum == 3
      && s'.heap[0] == s.heap[0] && s'.heap[1] == s.heap[1]
  {
    hide FirstJoin, Inv, Dispatch;
    FirstJoinFacts(2);
    assert Occupied(s, 0) && Occupied(s, 1) && Occupied(s, 2);
    DispatchSwitches(Enqueue(s, 1));
    StepKeepsInv(s, CallYield);
  }

  lemma TargetCancelled(s: State)
    requires Inv(s) && s.current == 2 && s.queue == [1] && |s.heap| == 3 && s.threadNum == 3
    requires Occupied(s, 0) && Occupied(s, 1) && Pointer(s, 0) == 0 && Pointer(s, 1) == 1
    requires s.heap[0] == NewTcb(0).(block := true, joinTo := 1, place := InsideJoin(1))
    requires s.heap[1] == NewTcb(1).(join := true, enable := false, joinFrom := 0)
    ensures Cancel(s, 1).Returns?
    ensures var s' := Cancel(s, 1).s;
      && Inv(s') && s'.current == 2 && s'.slots == s.slots && |s'.heap| == 3 && s'.threadNum == 3
      && s'.heap[0] == NewTcb(0).(place := InsideJoin(1)) && s'.heap[1].status == CANCELLED
  {
    hide Inv, Cancel;
    assert Live(s, 1) && CancelIsSound(s, 1);
    CancelKeepsInvIff(s, 1);
    CancelEffect(s, 1);
    assert AfterCancel(s, 1, 0) == NewTcb(0).(place := InsideJoin(1));
  }

  lemma ReleasedDropped(s: State)
    requires Inv(s) && s.current == 2 && Occupied(s, 0) && Pointer(s, 0) == 0 && s.threadNum == 3
    requires |s.heap| == 3 && s.heap[0] == NewTcb(0).(place := InsideJoin(1)) && s.heap[1].status == CANCELLED
    ensures Cancel(s, 0).Returns? && Lost(Cancel(s, 0).s, 1)
  {
    hide Inv, Cancel, Orphan;
    assert Live(s, 0) && CancelIsSound(s, 0);
    CancelOrphansIff(s, 0, 1);
    CancelStatus(s, 0, 1);
  }
}
