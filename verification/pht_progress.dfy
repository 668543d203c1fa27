/** The locked hash tables always finish: some thread can step, and every step counts. */
module PhtProgress {
  import opened Sums
  import opened PhtLists
  import opened PhtTable
  import opened PhtConcurrent

  // ---- No deadlock --------------------------------------------------------------------

  predicate CanStep(s: Config, t: nat)
    requires Inv(s)
  {
    t < |s.programs| && s.done[t] < |s.programs[t]| && (s.place[t] == Outside ==> s.locks[Lock(s, t)].None?)
  }

  /** Unless all threads are done, one of them can make a step: the owner of a mutex never
      waits for another one. */
  lemma NoDeadlock(s: Config) returns (t: nat)
    requires Inv(s) && !Quiescent(s)
    ensures CanStep(s, t)
  {
    t :| 0 <= t < |s.programs| && !(s.place[t] == Outside && s.done[t] == |s.programs[t]|);
    if s.place[t] == Outside && s.locks[Lock(s, t)].Some? {
      t := s.locks[Lock(s, t)].value;
      assert Inside(s, t);
    }
  }

  // ---- Every step counts --------------------------------------------------------------

  /** Adds of thread `t` that may still allocate an entry. */
  function MayAllocate(s: Config, t: nat): (n: nat)
    requires Sizes(s) && t < |s.programs|
  {
    |s.programs[t]| - s.done[t]
    - (if s.place[t].Linking? || s.place[t].Publishing? || s.place[t].Leaving? then 1 else 0)
  }

  function Allocations(s: Config): seq<int>
    requires Sizes(s)
  {
    seq(|s.programs|, t requires 0 <= t < |s.programs| => MayAllocate(s, t))
  }

  /** The heap never holds more than `n` entries. */
  ghost predicate Fits(s: Config, n: nat)
    requires Sizes(s)
  {
    |s.memory.nodes| + Sum(Allocations(s)) <= n
  }

  function LeftInCall(place: Place, n: nat): nat {
    match place
    case Outside => 0
    case Entered => n + 7
    case Searching(p) => Rank(p) + 6
    case Updating(_) => 2
    case Allocating => 5
    case Linking(_) => 4
    case Publishing(_) => 3
    case Leaving => 1
  }

  /** A bound for the steps that thread `t` still makes. */
  function Left(s: Config, t: nat, n: nat): int
    requires Sizes(s) && t < |s.programs|
  {
    (|s.programs[t]| - s.done[t] - (if s.place[t] == Outside then 0 else 1)) * (n + 8) + LeftInCall(s.place[t], n)
  }

  function LeftOfAll(s: Config, n: nat): seq<int>
    requires Sizes(s)
  {
    seq(|s.programs|, t requires 0 <= t < |s.programs| => Left(s, t, n))
  }

  function Work(s: Config, n: nat): int
    requires Sizes(s)
  {
    Sum(LeftOfAll(s, n))
  }

  lemma WorkIsNatural(s: Config, n: nat)
    requires Sizes(s)
    ensures Work(s, n) >= 0
  {
    var a := LeftOfAll(s, n);
    forall t | 0 <= t < |a| ensures a[t] >= 0 {
      var calls := |s.programs[t]| - s.done[t] - (if s.place[t] == Outside then 0 else 1);
      assert calls * (n + 8) >= 0;
    }
    if |a| > 0 { SumNonNegative(a, 0); }
  }

  function Allocated(place: Place): nat {
    if place.Linking? || place.Publishing? || place.Leaving? then 1 else 0
  }

  /** A step inside add_entry, in numbers. */
  lemma StepInside(s: Config, t: nat, n: nat)
    requires Inv(s) && CanStep(s, t) && |s.memory.nodes| <= n && s.place[t] != Outside && s.place[t] != Leaving
    ensures var s' := Step(s, t);
      && s'.programs == s.programs && s'.done == s.done && |s'.place| == |s.place|
      && (forall u :: 0 <= u < |s.place| && u != t ==> s'.place[u] == s.place[u])
      && s'.place[t] != Outside && LeftInCall(s'.place[t], n) < LeftInCall(s.place[t], n)
      && |s'.memory.nodes| + Allocated(s.place[t]) <= |s.memory.nodes| + Allocated(s'.place[t])
  {
    var m, k := s.memory, Op(s, t).0;
    assert Inside(s, t) && Knows(m, s.place[t], k, Op(s, t).1);
    hide Knows, LocksOk, KnowledgeOk, LogOk;
    match s.place[t]
    case Entered =>
    case Searching(_) => SearchedNode(s, t);
    case _ =>
  }

  lemma SearchedNode(s: Config, t: nat)
    requires Inv(s) && CanStep(s, t) && s.place[t].Searching?
    ensures Reaches(s.memory.nodes, s.place[t].p)
  {
    assert Inside(s, t) && Knows(s.memory, s.place[t], Op(s, t).0, Op(s, t).1);
  }

  /** What a step does to the numbers of its own thread. */
  lemma StepCounts(s: Config, t: nat, n: nat)
    requires Inv(s) && CanStep(s, t) && |s.memory.nodes| <= n
    ensures var s' := Step(s, t);
      && Sizes(s') && s'.programs == s.programs && Left(s', t, n) < Left(s, t, n)
      && |s'.memory.nodes| + MayAllocate(s', t) <= |s.memory.nodes| + MayAllocate(s, t)
      && (forall u :: 0 <= u < |s.programs| && u != t ==> s'.place[u] == s.place[u] && s'.done[u] == s.done[u])
  {
    hide Step, Inv;
    SizesOf(s);
    StepKeeps(s, t);
    SizesOf(Step(s, t));
    if s.place[t] == Outside || s.place[t] == Leaving {
      StepAtEdge(s, t);
      OneCallLess(|s.programs[t]| - s.done[t] - 1, n + 8);
    } else {
      StepInside(s, t, n);
    }
  }

  lemma OneCallLess(calls: int, n: int)
    ensures (calls + 1) * n == calls * n + n
  {
  }

  /** Entering and leaving add_entry. */
  lemma StepAtEdge(s: Config, t: nat)
    requires Inv(s) && CanStep(s, t) && (s.place[t] == Outside || s.place[t] == Leaving)
    ensures var s' := Step(s, t);
      && s'.programs == s.programs && s'.memory == s.memory
      && s'.place == s.place[t := if s.place[t] == Outside then Entered else Outside]
      && s'.done == s.done[t := if s.place[t] == Outside then s.done[t] else s.done[t] + 1]
  {
    hide MemoryOk, LocksOk, KnowledgeOk, LogOk;
  }

  lemma OthersSame(s: Config, s': Config, t: nat, n: nat)
    requires Sizes(s) && Sizes(s') && s'.programs == s.programs && t < |s.programs|
    requires forall u :: 0 <= u < |s.programs| && u != t ==> s'.place[u] == s.place[u] && s'.done[u] == s.done[u]
    ensures Work(s', n) == Work(s, n) - Left(s, t, n) + Left(s', t, n)
    ensures Sum(Allocations(s')) == Sum(Allocations(s)) - MayAllocate(s, t) + MayAllocate(s', t)
  {
    SumUpdate(LeftOfAll(s, n), t, Left(s', t, n));
    assert LeftOfAll(s', n) == LeftOfAll(s, n)[t := Left(s', t, n)];
    SumUpdate(Allocations(s), t, MayAllocate(s', t));
    assert Allocations(s') == Allocations(s)[t := MayAllocate(s', t)];
  }

  lemma FitsBounds(s: Config, n: nat)
    requires Sizes(s) && Fits(s, n)
    ensures |s.memory.nodes| <= n
  {
    if |Allocations(s)| > 0 { SumNonNegative(Allocations(s), 0); }
  }

  /** A step of a thread that can make one leaves less work. */
  lemma StepMakesProgress(s: Config, t: nat, n: nat)
    requires Inv(s) && Fits(s, n) && CanStep(s, t)
    ensures Inv(Step(s, t)) && Fits(Step(s, t), n) && Work(Step(s, t), n) < Work(s, n)
  {
    FitsBounds(s, n);
    StepKeeps(s, t);
    StepCounts(s, t, n);
    var s' := Step(s, t);
    hide Inv, Step, Work, Allocations, Left, MayAllocate;
    OthersSame(s, s', t, n);
  }

  // ---- From the start to the end ------------------------------------------------------

  function Lengths(programs: seq<seq<Pair>>): seq<int> {
    seq(|programs|, t requires 0 <= t < |programs| => |programs[t]|)
  }

  lemma StartFits(mode: Mode, programs: seq<seq<Pair>>)
    ensures Sum(Lengths(programs)) >= 0 && Sizes(Start(mode, programs))
    ensures Fits(Start(mode, programs), Sum(Lengths(programs)))
  {
    if |programs| > 0 { SumNonNegative(Lengths(programs), 0); }
    assert Allocations(Start(mode, programs)) == Lengths(programs);
  }

  /** From every state there is a schedule after which all threads are done. */
  lemma {:induction false} CanFinish(s: Config, n: nat) returns (schedule: seq<nat>)
    requires Inv(s) && Fits(s, n)
    ensures Quiescent(Run(s, schedule)) && |schedule| <= Work(s, n)
    decreases Work(s, n)
  {
    hide Inv, Quiescent, Step, Work, Fits;
    SizesOf(s);
    WorkIsNatural(s, n);
    if Quiescent(s) {
      schedule := [];
    } else {
      var t := NoDeadlock(s);
      StepMakesProgress(s, t, n);
      SizesOf(Step(s, t));
      WorkIsNatural(Step(s, t), n);
      var rest := CanFinish(Step(s, t), n);
      schedule := [t] + rest;
      assert schedule[1..] == rest;
    }
  }

  /** Every set of programs has a run to the end, with either kind of locks. */
  lemma EveryProgramCanFinish(mode: Mode, programs: seq<seq<Pair>>)
    ensures Inv(Start(mode, programs))
    ensures exists schedule :: Quiescent(Run(Start(mode, programs), schedule))
  {
    StartOk(mode, programs);
    StartFits(mode, programs);
    hide Start, Quiescent, Run, Step, Inv, Fits;
    var schedule := CanFinish(Start(mode, programs), Sum(Lengths(programs)));
  }

  lemma SizesOf(s: Config)
    requires Inv(s)
    ensures Sizes(s)
  {
  }

  /** The steps of a schedule that move a thread. */
  function Moves(s: Config, schedule: seq<nat>): nat
    requires Inv(s)
    decreases |schedule|
  {
    hide Inv, Step;
    if schedule == [] then 0 else
    StepKeeps(s, schedule[0]);
    (if CanStep(s, schedule[0]) then 1 else 0) + Moves(Step(s, schedule[0]), schedule[1..])
  }

  /** No schedule makes more moves than the work there is: no thread runs for ever. */
  lemma {:induction false} MovesAreBounded(s: Config, schedule: seq<nat>, n: nat)
    requires Inv(s) && Fits(s, n)
    ensures Moves(s, schedule) <= Work(s, n)
    decreases |schedule|
  {
    hide Inv, Step, Work, Fits, CanStep;
    SizesOf(s);
    WorkIsNatural(s, n);
    if schedule != [] {
      var t := schedule[0];
      StepKeeps(s, t);
      if CanStep(s, t) { StepMakesProgress(s, t, n); } else { StaysPut(s, t); }
      SizesOf(Step(s, t));
      MovesAreBounded(Step(s, t), schedule[1..], n);
    }
  }

  lemma StaysPut(s: Config, t: nat)
    requires Inv(s) && !CanStep(s, t)
    ensures Step(s, t) == s
  {
  }
}
