/** Copy-on-write against eager copying: two machines that run the same program, one with
    each kind of fork. */
module VmsLockstep {
  import opened VmsAddress
  import opened VmsMachine
  import opened VmsSteps
  import opened VmsSpace
  import opened VmsFork
  import opened VmsCount
  import opened VmsMmu
  import opened VmsIdeal
  import opened VmsRun
  import opened Wrappers

  // ---- Read-only pages: what a lazy fork shares for free ------------------------------

  function ReadOnlyLeaf(leaf: Option<Mapping>): nat { if leaf.Some? && !leaf.value.w then 1 else 0 }

  function ReadOnlyLow(low: LowSpace, n: nat): nat
    requires n <= |low|
  {
    if n == 0 then 0 else ReadOnlyLow(low, n - 1) + ReadOnlyLeaf(low[n - 1])
  }

  function ReadOnlyMid(mid: MidSpace, n: nat): nat
    requires n <= |mid|
  {
    if n == 0 then 0 else
    ReadOnlyMid(mid, n - 1) + if mid[n - 1].None? then 0 else ReadOnlyLow(mid[n - 1].value, |mid[n - 1].value|)
  }

  function ReadOnlySpace(space: Space, n: nat): nat
    requires n <= |space|
  {
    if n == 0 then 0 else
    ReadOnlySpace(space, n - 1) + if space[n - 1].None? then 0
      else ReadOnlyMid(space[n - 1].value, |space[n - 1].value|)
  }

  /** The read-only pages of a space. */
  function ReadOnlyPages(space: Space): nat { ReadOnlySpace(space, |space|) }

  lemma {:induction false} LowCosts(low: LowSpace, n: nat)
    requires n <= |low|
    ensures LowNeed(Eager, low, n) == LowNeed(Cow, low, n) + LowShares(Cow, low, n) + ReadOnlyLow(low, n)
    ensures LowShares(Eager, low, n) == 0
  {
    if n > 0 { LowCosts(low, n - 1); }
  }

  lemma {:induction false} MidCosts(mid: MidSpace, n: nat)
    requires n <= |mid|
    ensures MidNeed(Eager, mid, n) == MidNeed(Cow, mid, n) + MidShares(Cow, mid, n) + ReadOnlyMid(mid, n)
    ensures MidShares(Eager, mid, n) == 0
  {
    if n > 0 {
      MidCosts(mid, n - 1);
      if mid[n - 1].Some? { LowCosts(mid[n - 1].value, |mid[n - 1].value|); }
    }
  }

  lemma {:induction false} SpaceCosts(space: Space, n: nat)
    requires n <= |space|
    ensures SpaceNeed(Eager, space, n)
      == SpaceNeed(Cow, space, n) + SpaceShares(Cow, space, n) + ReadOnlySpace(space, n)
    ensures SpaceShares(Eager, space, n) == 0
  {
    if n > 0 {
      SpaceCosts(space, n - 1);
      if space[n - 1].Some? { MidCosts(space[n - 1].value, |space[n - 1].value|); }
    }
  }

  /** An eager fork takes one frame for each frame or reference that a lazy fork takes, and
      one more per read-only page. */
  lemma ForkCosts(space: Space)
    ensures ForkNeed(Eager, space) == ForkNeed(Cow, space) + ForkShares(Cow, space) + ReadOnlyPages(space)
    ensures ForkShares(Eager, space) == 0
  {
    SpaceCosts(space, |space|);
  }

  // ---- One call on both machines ------------------------------------------------------

  /** The same program with all forks of one kind. */
  function Forking(c: Call, mode: Mode): Call { if c.CallFork? then CallFork(mode) else c }

  function ForkingAll(p: Program, mode: Mode): (q: Program)
    ensures |q| == |p|
  {
    if p == [] then [] else [Forking(p[0], mode)] + ForkingAll(p[1..], mode)
  }

  /** Two machines that show the same memory; the eager one owes nobody a copy, and holds
      exactly `gap` frames more than the lazy one's frames and references together. */
  ghost predicate Abreast(lazy: State, eager: State, gap: int) {
    && Inv(lazy) && Inv(eager) && View(lazy) == View(eager)
    && RefSum(eager) == 0 && eager.used == Claims(lazy) + gap
  }

  /** Read-only pages that the call shares lazily and copies eagerly. */
  function CallGap(m: Ideal, c: Call): nat {
    if c.CallFork? && m.cur < |m.spaces| then ReadOnlyPages(m.spaces[m.cur]) else 0
  }

  lemma LazyFits(lazy: State, eager: State, gap: nat)
    requires Abreast(lazy, eager, gap)
    ensures 0 <= lazy.used <= Claims(lazy) <= eager.used <= MAX_PAGES
  {
    SumOfRefs(lazy);
    FramesBounded(eager);
    AllocSucceeds(lazy);
    assert lazy.ref[0] <= RefSum(lazy);
  }

  ghost predicate StaysAbreast(l: Result<State>, e: Result<State>, gap: int) {
    match e
    case Goes(event, eager') => l.Goes? && l.e == event && Abreast(l.m, eager', gap)
    case Stops(event) => event == NoMemory || l == Stops(event)
  }

  lemma ReadAbreast(lazy: State, eager: State, a: Address, gap: nat)
    requires Abreast(lazy, eager, gap) && Accessible(a)
    ensures StaysAbreast(Step(lazy, CallRead(a)), Step(eager, CallRead(a)), gap)
  {
    hide Inv, View, Read, RefSum, IdealRead;
    LazyFits(lazy, eager, gap);
    ReadRefines(lazy, a);
    ReadRefines(eager, a);
    var o := Read(eager, a);
    if o.Returned? { NoRefsLeft(o.s); }
  }

  lemma WriteAbreast(lazy: State, eager: State, a: Address, v: bv32, gap: nat)
    requires Abreast(lazy, eager, gap) && Accessible(a)
    ensures StaysAbreast(Step(lazy, CallWrite(a, v)), Step(eager, CallWrite(a, v)), gap)
  {
    hide Inv, View, Write, RefSum, IdealWrite;
    LazyFits(lazy, eager, gap);
    WriteRefines(lazy, a, v);
    WriteRefines(eager, a, v);
    var o := Write(eager, a, v);
    if o.Returned? { NoRefsLeft(o.s); }
  }

  lemma NoRefsLeft(s: State)
    requires Inv(s)
    ensures RefSum(s) >= 0
  {
    SumOfRefs(s);
    assert s.ref[0] <= RefSum(s);
  }

  lemma SetRootAbreast(lazy: State, eager: State, h: nat, gap: nat)
    requires Abreast(lazy, eager, gap)
    ensures StaysAbreast(Step(lazy, CallSetRoot(h)), Step(eager, CallSetRoot(h)), gap)
  {
    assert |lazy.roots| == |View(lazy).spaces| == |View(eager).spaces| == |eager.roots|;
    hide Inv, View;
    if h < |lazy.roots| {
      SetRootWorks(lazy, h);
      SetRootWorks(eager, h);
    }
  }

  lemma CountsByHandle(s: State, mode: Mode)
    requires Inv(s)
    ensures Handle(s) < |Spaces(s)|
    ensures var space := Spaces(s)[Handle(s)];
      && (Fork(s, mode).Some? <==> s.used + ForkNeed(mode, space) <= MAX_PAGES)
      && (Fork(s, mode).Some? ==>
            && Fork(s, mode).value.used == s.used + ForkNeed(mode, space)
            && RefSum(Fork(s, mode).value) == RefSum(s) + ForkShares(mode, space))
  {
    ViewOk(s);
    hide Inv, Fork, ForkNeed, ForkShares, RefSum, Spaces;
    ForkCounts(s, mode);
  }

  lemma ForkView(s: State, mode: Mode)
    requires Inv(s) && Fork(s, mode).Some?
    ensures Handle(s) < |Spaces(s)|
    ensures Inv(Fork(s, mode).value) && View(Fork(s, mode).value) == IdealFork(View(s))
  {
    ViewOk(s);
    hide Inv, Fork, Spaces;
    ForkWorks(s, mode);
  }

  lemma ForkAbreast(lazy: State, eager: State, gap: nat)
    requires Abreast(lazy, eager, gap)
    ensures StaysAbreast(Step(lazy, CallFork(Cow)), Step(eager, CallFork(Eager)),
      gap + CallGap(View(eager), CallFork(Eager)))
  {
    hide Inv, Fork, ForkNeed, ForkShares, RefSum, ReadOnlyPages, Spaces, Handle;
    LazyFits(lazy, eager, gap);
    ViewOk(lazy);
    ViewOk(eager);
    SpacesByHandle(lazy);
    SpacesByHandle(eager);
    CountsByHandle(lazy, Cow);
    CountsByHandle(eager, Eager);
    ForkCosts(Spaces(eager)[Handle(eager)]);
    if Fork(eager, Eager).Some? {
      ForkView(lazy, Cow);
      ForkView(eager, Eager);
    }
  }

  /** Call by call, the lazy machine does whatever the eager one does. */
  lemma StepAbreast(lazy: State, eager: State, c: Call, gap: nat)
    requires Abreast(lazy, eager, gap) && CallOk(c)
    ensures StaysAbreast(Step(lazy, Forking(c, Cow)), Step(eager, Forking(c, Eager)), gap + CallGap(View(eager), c))
  {
    hide Abreast, Step, StaysAbreast;
    match c
    case CallRead(a) => ReadAbreast(lazy, eager, a, gap);
    case CallWrite(a, v) => WriteAbreast(lazy, eager, a, v, gap);
    case CallSetRoot(h) => SetRootAbreast(lazy, eager, h, gap);
    case CallFork(mode) =>
      ForkAbreast(lazy, eager, gap);
  }

  // ---- Whole runs on both machines ----------------------------------------------------

  /** Read-only pages shared by the forks of a run, counted on the ideal machine. */
  function RunGap(m: Ideal, p: Program): nat
    requires m.cur < |m.spaces|
    decreases |p|
  {
    if p == [] then 0 else
    CallGap(m, p[0])
    + match IdealStep(m, p[0])
      case Stops(_) => 0
      case Goes(_, m') => IdealStepOk(m, p[0]); RunGap(m', p[1..])
  }

  ghost predicate TracesAbreast(l: Trace<State>, e: Trace<State>, gap: int) {
    && l.events == e.events && l.final.Some? == e.final.Some?
    && (e.final.Some? ==> Abreast(l.final.value, e.final.value, gap))
  }

  /** For every program: as long as the eager machine has memory, the lazy machine shows the
      same events, never runs out of memory, and its frames plus outstanding references stay
      behind the frames of the eager machine by exactly the read-only pages it shares. */
  lemma {:induction false} LazyNeverWorse(lazy: State, eager: State, p: Program, gap: nat)
    requires Abreast(lazy, eager, gap)
    requires NoMemory !in Run(eager, ForkingAll(p, Eager)).events
    ensures View(eager).cur < |View(eager).spaces|
    ensures TracesAbreast(Run(lazy, ForkingAll(p, Cow)), Run(eager, ForkingAll(p, Eager)), gap + RunGap(View(eager), p))
    decreases |p|
  {
    hide Abreast, Step, IdealStep, View, TracesAbreast, CallGap;
    AbreastFits(lazy, eager, gap);
    if p == [] {
      SameStart(lazy, eager, gap);
    } else {
      var pl, pe := ForkingAll(p, Cow), ForkingAll(p, Eager);
      assert pl[1..] == ForkingAll(p[1..], Cow) && pe[1..] == ForkingAll(p[1..], Eager);
      StepAbreast(lazy, eager, p[0], gap);
      EagerIsIdeal(lazy, eager, p[0], gap);
      var e := Step(eager, pe[0]);
      if e.Stops? {
        assert e.e in Run(eager, pe).events;
        SameStop(e.e, gap + RunGap(View(eager), p));
      } else {
        var lazy' := Step(lazy, pl[0]).m;
        var te := Run(e.m, pe[1..]);
        InMore(e.e, te.events);
        LazyNeverWorse(lazy', e.m, p[1..], gap + CallGap(View(eager), p[0]));
        SameMore(e.e, Run(lazy', pl[1..]), te, gap + RunGap(View(eager), p));
      }
    }
  }

  lemma SameStart(lazy: State, eager: State, gap: nat)
    requires Abreast(lazy, eager, gap)
    ensures TracesAbreast(Trace([], Some(lazy)), Trace([], Some(eager)), gap)
  {
  }

  lemma SameStop(e: Event, gap: nat)
    ensures TracesAbreast(Trace([e], None), Trace([e], None), gap)
  {
  }

  lemma SameMore(e: Event, l: Trace<State>, t: Trace<State>, gap: nat)
    requires TracesAbreast(l, t, gap)
    ensures TracesAbreast(l.(events := [e] + l.events), t.(events := [e] + t.events), gap)
  {
  }

  lemma InMore(e: Event, events: seq<Event>)
    ensures e in [e] + events && forall x :: x in events ==> x in [e] + events
  {
  }

  /** From a machine that has not shared anything yet: a program that an eager system runs to
      its end in the memory it has, a copy-on-write system runs to the same end, and needs no
      more frames. */
  lemma CopyOnWriteNeverCostsMore(s: State, p: Program)
    requires Inv(s) && RefSum(s) == 0
    requires NoMemory !in Run(s, ForkingAll(p, Eager)).events
    ensures var l, e := Run(s, ForkingAll(p, Cow)), Run(s, ForkingAll(p, Eager));
      && l.events == e.events && l.final.Some? == e.final.Some?
      && (e.final.Some? ==> View(l.final.value) == View(e.final.value) && l.final.value.used <= e.final.value.used)
  {
    hide Abreast, Run, View, RefSum, RunGap;
    AbreastSelf(s);
    LazyNeverWorse(s, s, p, 0);
    var l, e := Run(s, ForkingAll(p, Cow)), Run(s, ForkingAll(p, Eager));
    if e.final.Some? { AbreastFits(l.final.value, e.final.value, RunGap(View(s), p)); }
  }

  lemma AbreastSelf(s: State)
    requires Inv(s) && RefSum(s) == 0
    ensures Abreast(s, s, 0)
  {
  }

  lemma AbreastFits(lazy: State, eager: State, gap: nat)
    requires Abreast(lazy, eager, gap)
    ensures lazy.used <= eager.used && View(lazy) == View(eager) && View(eager).cur < |View(eager).spaces|
  {
    LazyFits(lazy, eager, gap);
    ViewOk(eager);
  }

  lemma EagerIsIdeal(lazy: State, eager: State, c: Call, gap: nat)
    requires Abreast(lazy, eager, gap) && CallOk(c)
    ensures View(eager).cur < |View(eager).spaces|
    ensures Step(eager, Forking(c, Eager)).Goes? ==>
      IdealStep(View(eager), c) == Goes(Step(eager, Forking(c, Eager)).e, View(Step(eager, Forking(c, Eager)).m))
  {
    StepRefines(eager, Forking(c, Eager));
  }
}
