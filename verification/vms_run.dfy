/** Whole runs: any sequence of reads, writes, root changes and forks of either kind. */
module VmsRun {
  import opened VmsAddress
  import opened VmsBytes
  import opened VmsMachine
  import opened VmsSteps
  import opened VmsSpace
  import opened VmsFork
  import opened VmsMmu
  import opened VmsIdeal
  import opened Wrappers

  /** A call of the program. Roots are named by the order of their creation; offsets leave
      room for the four bytes of an int. */
  datatype Call = CallRead(a: Address) | CallWrite(a: Address, v: bv32) | CallSetRoot(h: nat) | CallFork(mode: Mode)

  predicate CallOk(c: Call) {
    match c
    case CallRead(a) => Accessible(a)
    case CallWrite(a, _) => Accessible(a)
    case _ => true
  }

  type Program = p: seq<Call> | forall i :: 0 <= i < |p| ==> CallOk(p[i])

  /** What the program observes. After a fatal fault, or without memory, the process is gone. */
  datatype Event = Value(v: bv32) | Done | Forked(h: nat) | NoSuchRoot | FatalFault | NoMemory

  datatype Result<+M> = Goes(e: Event, m: M) | Stops(e: Event)

  function ReadEvent(o: Outcome): Result<State> {
    match o
    case Returned(s, v) => Goes(Value(v), s)
    case Fatal => Stops(FatalFault)
    case OutOfMemory => Stops(NoMemory)
  }

  function WriteEvent(o: Outcome): Result<State> {
    match o
    case Returned(s, _) => Goes(Done, s)
    case Fatal => Stops(FatalFault)
    case OutOfMemory => Stops(NoMemory)
  }

  function Step(s: State, c: Call): Result<State>
    requires CallOk(c)
  {
    match c
    case CallRead(a) => ReadEvent(Read(s, a))
    case CallWrite(a, v) => WriteEvent(Write(s, a, v))
    case CallSetRoot(h) =>
      if h < |s.roots| && Frame(s.roots[h]) then Goes(Done, s.(root := s.roots[h])) else Goes(NoSuchRoot, s)
    case CallFork(mode) =>
      match Fork(s, mode) case None => Stops(NoMemory) case Some(s') => Goes(Forked(|s.roots|), s')
  }

  function IdealEvent(o: IdealOutcome, write: bool): Result<Ideal> {
    match o
    case IdealReturned(m, v) => Goes(if write then Done else Value(v), m)
    case IdealFatal => Stops(FatalFault)
  }

  function IdealStep(m: Ideal, c: Call): Result<Ideal>
    requires CallOk(c) && m.cur < |m.spaces|
  {
    match c
    case CallRead(a) => IdealEvent(IdealRead(m, a), false)
    case CallWrite(a, v) => IdealEvent(IdealWrite(m, a, v), true)
    case CallSetRoot(h) => if h < |m.spaces| then Goes(Done, m.(cur := h)) else Goes(NoSuchRoot, m)
    case CallFork(_) => Goes(Forked(|m.spaces|), IdealFork(m))
  }

  /** The events of a run, and the state it leaves if the process lives on. */
  datatype Trace<+M> = Trace(events: seq<Event>, final: Option<M>)

  function Run(s: State, p: Program): Trace<State>
    decreases |p|
  {
    if p == [] then Trace([], Some(s)) else
    match Step(s, p[0])
    case Stops(e) => Trace([e], None)
    case Goes(e, s') => var t := Run(s', p[1..]); t.(events := [e] + t.events)
  }

  function IdealRun(m: Ideal, p: Program): Trace<Ideal>
    requires m.cur < |m.spaces|
    decreases |p|
  {
    if p == [] then Trace([], Some(m)) else
    match IdealStep(m, p[0])
    case Stops(e) => Trace([e], None)
    case Goes(e, m') =>
      IdealStepOk(m, p[0]);
      var t := IdealRun(m', p[1..]); t.(events := [e] + t.events)
  }

  lemma IdealStepOk(m: Ideal, c: Call)
    requires CallOk(c) && m.cur < |m.spaces|
    ensures IdealStep(m, c).Goes? ==> IdealStep(m, c).m.cur < |IdealStep(m, c).m.spaces|
  {
  }

  // ---- One call -----------------------------------------------------------------------

  lemma SetRootWorks(s: State, h: nat)
    requires Inv(s) && h < |s.roots|
    ensures Frame(s.roots[h]) && Inv(s.(root := s.roots[h])) && View(s.(root := s.roots[h])) == View(s).(cur := h)
  {
    var s' := s.(root := s.roots[h]);
    RootChangeKeeps(s, s');
    forall g | 0 <= g < |s.roots| ensures RootView(s', s.roots[g]) == RootView(s, s.roots[g]) {
      SameMemorySameView(s, s', s.roots[g]);
    }
  }

  lemma RootChangeKeeps(s: State, s': State)
    requires Inv(s) && s' == s.(root := s'.root) && s.role[s'.root].Root?
    ensures Inv(s')
  {
    SameLeavesKeep(s, s');
    TablesKept(s, s');
    LinksKept(s, s', {}, {});
    assert FramesInUse(s') == FramesInUse(s);
  }

  lemma SameMemorySameView(s: State, s': State, p: int)
    requires s'.mem == s.mem && s'.base == s.base
    ensures RootView(s', p) == RootView(s, p)
  {
    forall q ensures LowView(s', q) == LowView(s, q) {
      forall k | 0 <= k < NUM_PTE_ENTRIES ensures ViewLeaf(s', At(s', q)[k]) == ViewLeaf(s, At(s, q)[k]) {}
    }
    forall q ensures MidView(s', q) == MidView(s, q) {
      forall j | 0 <= j < NUM_PTE_ENTRIES ensures ViewLow(s', At(s', q)[j]) == ViewLow(s, At(s, q)[j]) {}
    }
    forall i | 0 <= i < NUM_PTE_ENTRIES ensures ViewMid(s', At(s', p)[i]) == ViewMid(s, At(s, p)[i]) {}
  }

  /** Every call keeps the invariant and does what the ideal machine does, unless it runs out
      of memory. */
  lemma StepRefines(s: State, c: Call)
    requires Inv(s) && CallOk(c)
    ensures View(s).cur < |View(s).spaces|
    ensures match Step(s, c)
      case Goes(e, s') => Inv(s') && IdealStep(View(s), c) == Goes(e, View(s'))
      case Stops(e) => e == NoMemory || IdealStep(View(s), c) == Stops(e)
  {
    ViewOk(s);
    match c
    case CallRead(a) => ReadRefines(s, a);
    case CallWrite(a, v) => WriteRefines(s, a, v);
    case CallSetRoot(h) => if h < |s.roots| { SetRootWorks(s, h); }
    case CallFork(mode) => if Fork(s, mode).Some? { ForkWorks(s, mode); }
  }

  // ---- Runs ---------------------------------------------------------------------------

  /** Events up to the point, if any, where memory runs out. */
  ghost predicate AgreesUntilNoMemory(seen: seq<Event>, ideal: seq<Event>) {
    seen == ideal || (|seen| > 0 && seen[|seen| - 1] == NoMemory && seen[..|seen| - 1] <= ideal)
  }

  /** The real machine is indistinguishable from private memories, for every program, whatever
      mixture of eager and copy-on-write forks it makes; and it keeps its invariant. */
  lemma {:induction false} RunRefines(s: State, p: Program)
    requires Inv(s)
    ensures View(s).cur < |View(s).spaces|
    ensures AgreesUntilNoMemory(Run(s, p).events, IdealRun(View(s), p).events)
    ensures Run(s, p).final.Some? ==>
      Inv(Run(s, p).final.value) && IdealRun(View(s), p).final == Some(View(Run(s, p).final.value))
    decreases |p|
  {
    hide Inv, View, Step, IdealStep;
    ViewHasCurrent(s);
    if p != [] {
      StepRefines(s, p[0]);
      match Step(s, p[0])
      case Stops(e) =>
      case Goes(e, s') =>
        RunRefines(s', p[1..]);
        AgreesOneMore(e, Run(s', p[1..]).events, IdealRun(View(s'), p[1..]).events);
    }
  }

  lemma ViewHasCurrent(s: State)
    requires Inv(s)
    ensures View(s).cur < |View(s).spaces|
  {
  }

  lemma AgreesOneMore(e: Event, seen: seq<Event>, ideal: seq<Event>)
    requires AgreesUntilNoMemory(seen, ideal)
    ensures AgreesUntilNoMemory([e] + seen, [e] + ideal)
  {
    if seen != ideal {
      assert ([e] + seen)[..|[e] + seen| - 1] == [e] + seen[..|seen| - 1];
    }
  }

  ghost predicate BytesChanged(before: Page, after: Page, o: nat, v: bv32)
    requires o + 4 <= PAGE_SIZE
  {
    forall i :: 0 <= i < PAGE_SIZE ==>
      ByteAt(after, i) == if o <= i < o + 4 then IntByte(v, i - o) else ByteAt(before, i)
  }

  /** `after` is `before` with the int `v` at offset `o`. */
  ghost predicate FourBytesChanged(before: Option<Mapping>, after: Option<Mapping>, o: nat, v: bv32)
    requires o + 4 <= PAGE_SIZE
  {
    && before.Some? && before.value.w && after.Some?
    && after.value.r == before.value.r && after.value.w == before.value.w
    && BytesChanged(before.value.data, after.value.data, o, v)
  }

  predicate SamePage(a: Address, b: Address) { b.i2 == a.i2 && b.i1 == a.i1 && b.i0 == a.i0 }

  lemma IdealWriteChangesFourBytes(m: Ideal, a: Address, v: bv32, h: nat, b: Address)
    requires m.cur < |m.spaces| && h < |m.spaces| && Accessible(a) && IdealWrite(m, a, v).IdealReturned?
    ensures var m' := IdealWrite(m, a, v).m;
      && m'.cur == m.cur && |m'.spaces| == |m.spaces|
      && (if h == m.cur && SamePage(a, b)
          then FourBytesChanged(Lookup(m.spaces[h], b), Lookup(m'.spaces[h], b), a.offset, v)
          else Lookup(m'.spaces[h], b) == Lookup(m.spaces[h], b))
  {
    hide WriteInt, BytesChanged, SetMapping;
    var page := Lookup(m.spaces[m.cur], a).value;
    var data: Page := WriteInt(page.data, a.offset, v);
    LookupSetMapping(m.spaces[m.cur], a, Some(page.(data := data)), b);
    WriteChangesBytes(page.data, a.offset, v);
  }

  lemma WriteChangesBytes(page: Page, o: nat, v: bv32)
    requires o + 4 <= PAGE_SIZE
    ensures BytesChanged(page, WriteInt(page, o, v), o, v)
  {
    hide WriteInt, ByteAt, IntByte;
    forall i | 0 <= i < PAGE_SIZE
      ensures ByteAt(WriteInt(page, o, v), i) == if o <= i < o + 4 then IntByte(v, i - o) else ByteAt(page, i)
    {
      WriteIntBytes(page, o, v, i);
    }
  }

  /** A write that returns changes four bytes behind one page of one root, and nothing that
      any other page, any other root or any other byte shows, even if it faults on the way. */
  lemma WriteChangesFourBytes(s: State, a: Address, v: bv32, h: nat, b: Address)
    requires Inv(s) && Accessible(a) && Write(s, a, v).Returned? && h < |s.roots|
    ensures var s' := Write(s, a, v).s;
      && Inv(s') && |Spaces(s')| == |Spaces(s)|
      && (if h == Handle(s) && SamePage(a, b)
          then FourBytesChanged(Lookup(Spaces(s)[h], b), Lookup(Spaces(s')[h], b), a.offset, v)
          else Lookup(Spaces(s')[h], b) == Lookup(Spaces(s)[h], b))
  {
    hide Inv, Write, IdealWrite, FourBytesChanged, Lookup, Spaces;
    ViewHasCurrent(s);
    WriteRefines(s, a, v);
    SpacesByHandle(s);
    IdealWriteChangesFourBytes(View(s), a, v, h, b);
  }

  lemma SpacesByHandle(s: State)
    ensures |Spaces(s)| == |s.roots|
  {
  }

  lemma IdealReadAfterWrite(m: Ideal, a: Address, v: bv32)
    requires m.cur < |m.spaces| && Accessible(a) && IdealWrite(m, a, v).IdealReturned?
    ensures var m' := IdealWrite(m, a, v).m;
      m'.cur == m.cur < |m'.spaces| && (IdealRead(m', a).IdealReturned? ==> IdealRead(m', a).value == v)
  {
    var page := Lookup(m.spaces[m.cur], a).value;
    var data: Page := WriteInt(page.data, a.offset, v);
    LookupSetMapping(m.spaces[m.cur], a, Some(page.(data := data)), a);
    hide ReadInt, WriteInt;
    ReadWritten(page.data, a.offset, v);
  }

  /** What was written is what the next read of that address returns, if it returns. */
  lemma ReadAfterWrite(s: State, a: Address, v: bv32)
    requires Inv(s) && Accessible(a) && Write(s, a, v).Returned?
    ensures Read(Write(s, a, v).s, a).Returned? ==> Read(Write(s, a, v).s, a).value == v
  {
    hide Inv, Read, Write, IdealRead, IdealWrite;
    WriteRefines(s, a, v);
    ReadRefines(Write(s, a, v).s, a);
    IdealReadAfterWrite(View(s), a, v);
  }

  function Two(c: Call, d: Call): Program
    requires CallOk(c) && CallOk(d)
  {
    [c, d]
  }

  lemma RunTwo(s: State, c: Call, d: Call, s1: State, s2: State, e: Event, f: Event)
    requires CallOk(c) && CallOk(d) && Step(s, c) == Goes(e, s1) && Step(s1, d) == Goes(f, s2)
    ensures Run(s, Two(c, d)) == Trace([e, f], Some(s2))
  {
    hide Step;
    assert [c, d][1..] == [d];
    assert Run(s1, [d]) == Trace([f], Some(s2));
  }

  /** The same as events: a program that writes an int and reads it sees the int. */
  lemma WrittenIsSeen(s: State, a: Address, v: bv32, s1: State, x: bv32, s2: State, y: bv32)
    requires Inv(s) && Accessible(a) && Write(s, a, v) == Returned(s1, x) && Read(s1, a) == Returned(s2, y)
    ensures Run(s, Two(CallWrite(a, v), CallRead(a))) == Trace([Done, Value(v)], Some(s2))
  {
    hide Inv, Read, Write, Run;
    ReadAfterWrite(s, a, v);
    RunTwo(s, CallWrite(a, v), CallRead(a), s1, s2, Done, Value(v));
  }

  /** The handle that a fork reports is new, names the copy of the current space, and a later
      root change to it makes that copy current. */
  lemma ForkedHandle(s: State, mode: Mode)
    requires Inv(s) && Step(s, CallFork(mode)).Goes?
    ensures View(s).cur < |View(s).spaces|
    ensures var (e, s') := (Step(s, CallFork(mode)).e, Step(s, CallFork(mode)).m);
      && e == Forked(|View(s).spaces|) && |View(s').spaces| == |View(s).spaces| + 1
      && View(s').spaces[|View(s).spaces|] == View(s).spaces[View(s).cur]
      && Step(s', CallSetRoot(|View(s).spaces|)).e == Done
      && View(Step(s', CallSetRoot(|View(s).spaces|)).m).cur == |View(s).spaces|
  {
    hide Inv, Step, View;
    StepRefines(s, CallFork(mode));
    var s' := Step(s, CallFork(mode)).m;
    RootChangeWorks(s', |View(s).spaces|);
  }

  lemma RootChangeWorks(s: State, h: nat)
    requires Inv(s) && h < |View(s).spaces|
    ensures var r := Step(s, CallSetRoot(h)); r.Goes? && r.e == Done && View(r.m).cur == h
  {
    StepRefines(s, CallSetRoot(h));
    SetRootWorks(s, h);
    hide Inv, View;
  }
}
