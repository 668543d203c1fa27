/** Slots that are lost: exactly when the slot of a thread can never be reused. */
module WutSlots {
  import opened WutThreads
  import opened WutInvariant
  import opened WutCalls
  import opened WutCancel
  import opened WutRuns
  import opened WutStatus

  /** The slot of block `b` may not be reused, and no thread is there that would change that:
      the one that was waiting for it has been cancelled inside its wut_join. */
  ghost predicate Orphan(s: State, b: nat) {
    && b < |s.heap| && !s.heap[b].enable
    && Occupied(s, s.heap[b].id) && Pointer(s, s.heap[b].id) == b
    && forall i :: Live(s, i) ==> Thread(s, i).place != InsideJoin(b)
  }

  /** An orphan whose thread has ended: nobody can join it any more. */
  ghost predicate Lost(s: State, b: nat) { Orphan(s, b) && s.heap[b].status != RUNNING }

  // ---- The two calls that matter ------------------------------------------------------

  /** The call cancels the thread that is inside a wut_join on block `b`, blocked or ready. */
  predicate Drops(s: State, c: Call, b: nat) {
    c.CallCancel? && Live(s, c.id) && !CancelRefused(s, c.id) && Thread(s, c.id).place == InsideJoin(b)
  }

  /** The call is a wut_join that blocks on the thread of block `b`. */
  predicate Adopts(s: State, c: Call, b: nat) {
    && c.CallJoin? && !JoinRefused(s, c.id) && Occupied(s, c.id) && !JoinReturnsAtOnce(s, c.id)
    && Pointer(s, c.id) == b
  }

  lemma SwitchOrphan(s: State, b: nat)
    requires Suspended(s) && s.queue != []
    ensures Dispatch(s).Switches? && (Orphan(Dispatch(s).s, b) <==> Orphan(s, b))
  {
    DispatchSwitches(s);
    var s', y := Dispatch(s).s, s.queue[0];
    hide Dispatch, Blocked;
    SwitchFrame(s, s');
    assert Live(s, y) && PlaceOk(s, y);
    forall i | Live(s, i) && i != y ensures Thread(s', i).place == Thread(s, i).place {
      assert Thread(s, i).id == i && Thread(s, y).id == y;
    }
  }

  lemma CreateOrphan(s: State, b: nat)
    requires Inv(s)
    ensures Create(s).Returns? && (Orphan(Create(s).s, b) <==> Orphan(s, b))
  {
    CreateWorks(s);
    CreateHeap(s);
    var s', n := Create(s).s, Create(s).v;
    hide Create, Inv;
    assert forall i :: Live(s, i) ==> i != n;
    forall i | Live(s', i) && i != n ensures Live(s, i) && Thread(s', i) == Thread(s, i) {}
    forall i | Live(s, i) ensures Live(s', i) && Thread(s', i) == Thread(s, i) { CreateSpares(s, i); }
  }

  lemma CreateSpares(s: State, i: int)
    requires Create(s).Returns? && Occupied(s, i) && i != Create(s).v
    ensures Occupied(Create(s).s, i) && Pointer(Create(s).s, i) == Pointer(s, i)
      && Thread(Create(s).s, i) == Thread(s, i)
  {
  }

  lemma BlockOrphan(s: State, id: int, b: nat)
    requires MayBlock(s, id)
    ensures Orphan(Block(s, id), b) <==> Orphan(s, b) && b != Pointer(s, id)
  {
    BlockEffect(s, id);
    var s' := Block(s, id);
    hide Block, Blocked, Inv;
    BlockedFrame(s, s', id);
    assert Thread(s, id).id == id && Thread(s, s.current).id == s.current;
    RunsElsewhere(s);
    assert Thread(s', s.current).place == InsideJoin(Pointer(s, id));
  }

  lemma RunsElsewhere(s: State)
    requires Inv(s)
    ensures Live(s, s.current) && Thread(s, s.current).place == Elsewhere
  {
  }

  lemma ExitOrphan(s: State, status: int, b: nat)
    requires Inv(s)
    ensures Orphan(Terminate(s, status), b) <==> Orphan(s, b)
  {
    TerminateEffect(s, status);
    var s' := Terminate(s, status);
    TerminatedFrame(s, s', status);
    RunsElsewhere(s);
    hide Terminate, Blocked, Inv;
  }

  lemma YieldOrphan(s: State, b: nat)
    ensures Orphan(Enqueue(s, s.current), b) <==> Orphan(s, b)
  {
    EnqueueFrame(s, s.current);
  }

  /** A sound cancellation orphans exactly the block that its thread was joining, whether that
      thread was still blocked or already released. */
  lemma CancelOrphansIff(s: State, id: int, b: nat)
    requires Inv(s) && Live(s, id) && !CancelRefused(s, id) && CancelIsSound(s, id)
    ensures Cancel(s, id).Returns?
    ensures Orphan(Cancel(s, id).s, b) <==> Orphan(s, b) || Thread(s, id).place == InsideJoin(b)
  {
    if Blocked(s, id) { BlockedFacts(s, id); }
    CancelEffect(s, id);
    InsideIsHeld(s, id, b);
    OrphanAfterCancel(s, Cancel(s, id).s, id, b);
    hide Cancel, Inv, Live, Orphan, CancelIsSound, Cancelled;
  }

  lemma OrphanAfterCancel(s: State, s': State, id: int, b: nat)
    requires MayCancel(s, s', id)
    requires Thread(s, id).place == InsideJoin(b) ==> Held(s, id, b)
    ensures Orphan(s', b) <==> Orphan(s, b) || Thread(s, id).place == InsideJoin(b)
  {
    CancelledHeap(s, s', id);
    CancelledFrame(s, s', id);
    hide Inv, AfterCancel, CancelIsSound, Blocked, MayCancel;
  }

  lemma CancelledHeap(s: State, s': State, id: int)
    requires MayCancel(s, s', id)
    ensures |s'.heap| == |s.heap| && s'.slots == s.slots
    ensures forall p :: 0 <= p < |s.heap| ==>
      s'.heap[p].enable == s.heap[p].enable && s'.heap[p].place == s.heap[p].place && s'.heap[p].id == s.heap[p].id
  {
    hide Inv, CancelIsSound, Blocked;
  }

  /** Thread `w` alone is inside a wut_join on block `b`, whose slot it keeps. */
  ghost predicate Held(s: State, w: int, b: nat) {
    && b < |s.heap| && !s.heap[b].enable && Occupied(s, s.heap[b].id) && Pointer(s, s.heap[b].id) == b
    && forall i :: Live(s, i) && i != w ==> Thread(s, i).place != InsideJoin(b)
  }

  lemma InsideIsHeld(s: State, w: int, b: nat)
    requires Inv(s) && Live(s, w)
    ensures Thread(s, w).place == InsideJoin(b) ==> Held(s, w, b)
  {
    assert PlaceOk(s, w);
  }

  /** After a blocked thread is cancelled, its target lives on as an orphan. */
  lemma CancelOfBlockedThreadLeaks(s: State, id: int)
    requires Inv(s) && Blocked(s, id) && CancelIsSound(s, id) && !CancelRefused(s, id)
    ensures var s', t := Cancel(s, id).s, Thread(s, id).joinTo;
      && Cancel(s, id).Returns? && Live(s', t) && !Thread(s', t).enable && Orphan(s', Pointer(s', t))
      && forall i :: Live(s', i) ==> Thread(s', i).place != InsideJoin(Pointer(s', t))
  {
    BlockedFacts(s, id);
    var t := Thread(s, id).joinTo;
    CancelOrphansIff(s, id, Pointer(s, t));
    CancelEffect(s, id);
    assert Thread(s, t).id == t;
    var s' := Cancel(s, id).s;
    hide Cancel, Blocked;
    CancelledFrame(s, s', id);
    assert t != id by { assert EdgeOk(s, t); }
  }

  // ---- Every call ---------------------------------------------------------------------

  /** One call makes an orphan exactly by cancelling the joiner of its block, and rescues one
      exactly by joining it. */
  lemma OrphanStepIff(s: State, c: Call, b: nat)
    requires Inv(s) && CancelOk(s, c) && Next(Step(s, c)).Some?
    ensures Orphan(Next(Step(s, c)).value, b) <==> if Orphan(s, b) then !Adopts(s, c, b) else Drops(s, c, b)
  {
    hide Dispatch, Orphan, Blocked;
    match c
    case CallCreate => CreateOrphan(s, b);
    case CallCancel(id) =>
      if Live(s, id) && !CancelRefused(s, id) {
        CancelOrphansIff(s, id, b);
        if Thread(s, id).place == InsideJoin(b) { DroppedIsNoOrphan(s, id, b); }
      } else {
        CancelCode(s, id);
      }
    case CallJoin(id) =>
      if !JoinRefused(s, id) && !JoinReturnsAtOnce(s, id) {
        BlockSuspends(s, id);
        BlockOrphan(s, id, b);
        SwitchOrphan(Block(s, id), b);
      }
    case CallYield =>
      if s.queue != [] {
        YieldSuspends(s);
        YieldOrphan(s, b);
        SwitchOrphan(Enqueue(s, s.current), b);
      }
    case CallExit(status) =>
      TerminateSuspends(s, status);
      ExitOrphan(s, status, b);
      SwitchOrphan(Terminate(s, status), b);
  }

  lemma DroppedIsNoOrphan(s: State, id: int, b: nat)
    requires Live(s, id) && Thread(s, id).place == InsideJoin(b)
    ensures !Orphan(s, b)
  {
  }

  // ---- Runs ---------------------------------------------------------------------------

  /** Whether the last call of a run that matters for block `b` has orphaned it. */
  predicate OrphanedBy(orphan: bool, s: State, p: seq<Call>, b: nat)
    decreases |p|
  {
    if p == [] then orphan else
    match Next(Step(s, p[0]))
    case None => orphan
    case Some(s') => OrphanedBy(if orphan then !Adopts(s, p[0], b) else Drops(s, p[0], b), s', p[1..], b)
  }

  lemma {:induction false} OrphanHistory(s: State, p: seq<Call>, b: nat)
    requires Inv(s) && SoundRun(s, p) && Run(s, p).Going?
    ensures Inv(Run(s, p).s) && (Orphan(Run(s, p).s, b) <==> OrphanedBy(Orphan(s, b), s, p, b))
    decreases |p|
  {
    hide Orphan, Inv, Step, CancelOk, Adopts, Drops, WellFormed;
    if p != [] {
      StepKeepsInv(s, p[0]);
      OrphanStepIff(s, p[0], b);
      OrphanHistory(Next(Step(s, p[0])).value, p[1..], b);
    }
  }

  /** In every program without unsound cancellations: a slot is lost exactly when its thread
      has ended, its last joiner was cancelled inside wut_join, and nobody joined it since. */
  lemma SlotIsLostIff(p: seq<Call>, b: nat)
    requires SoundRun(Init(), p) && Run(Init(), p).Going?
    ensures Lost(Run(Init(), p).s, b) <==> EndStatus(Init(), p, b).Some? && OrphanedBy(false, Init(), p, b)
  {
    InitInv();
    assert !Orphan(Init(), b);
    OrphanHistory(Init(), p, b);
    StatusAfterRun(Init(), p, b);
    hide Run, EndStatus, OrphanedBy, Inv, Init;
  }

  /** A slot with an ended thread is free to be reused, or it is lost, or a ready thread is
      about to release it. */
  lemma EndedSlot(s: State, i: int)
    requires Inv(s) && Occupied(s, i) && !Live(s, i)
    ensures Thread(s, i).enable || Lost(s, Pointer(s, i))
         || exists w :: w in s.queue && Live(s, w) && Thread(s, w).place == InsideJoin(Pointer(s, i))
    ensures Lost(s, Pointer(s, i)) ==>
      !Thread(s, i).enable && forall w :: Live(s, w) ==> Thread(s, w).place != InsideJoin(Pointer(s, i))
  {
    var b := Pointer(s, i);
    assert s.heap[b].id == i;
    if !Thread(s, i).enable && !Orphan(s, b) {
      var w :| Live(s, w) && Thread(s, w).place == InsideJoin(b);
      if Blocked(s, w) { BlockedFacts(s, w); }
    }
  }

  // ---- A lost slot stays lost ---------------------------------------------------------

  lemma LostStep(s: State, c: Call, b: nat)
    requires Inv(s) && CancelOk(s, c) && Lost(s, b) && Next(Step(s, c)).Some?
    ensures Lost(Next(Step(s, c)).value, b)
  {
    OrphanStepIff(s, c, b);
    StatusIsFinal(s, c, b);
    hide Step, Inv;
  }

  lemma CreateSparesLost(s: State, b: nat)
    requires Inv(s) && Lost(s, b)
    ensures Create(s).Returns? && Create(s).v != s.heap[b].id
  {
    CreateWorks(s);
    hide Create, Inv;
  }

  /** A lost slot is never used again, whatever the program does. */
  lemma {:induction false} LostForever(s: State, p: seq<Call>, b: nat)
    requires Inv(s) && SoundRun(s, p) && Lost(s, b) && Run(s, p).Going?
    ensures Lost(Run(s, p).s, b) && Inv(Run(s, p).s) && Create(Run(s, p).s).Returns?
    ensures Create(Run(s, p).s).v != Run(s, p).s.heap[b].id
    decreases |p|
  {
    hide Lost, Inv, Step, CancelOk, WellFormed;
    if p == [] {
      CreateSparesLost(s, b);
    } else {
      StepKeepsInv(s, p[0]);
      LostStep(s, p[0], b);
      LostForever(Next(Step(s, p[0])).value, p[1..], b);
    }
  }
}
