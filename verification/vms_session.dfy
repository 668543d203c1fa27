/** A whole session on the object: tables are built, a page is written, the address space is
    forked, and parent and child go their own ways. */
module VmsSession {
  import opened Wrappers
  import opened Binaries
  import opened VmsAddress
  import opened VmsBytes
  import opened VmsPte
  import opened VmsMachine
  import opened VmsSteps
  import opened VmsSpace
  import opened VmsFork
  import opened VmsCount
  import opened VmsMmu
  import opened VmsStraddle
  import opened VmsIdeal
  import opened VmsRun
  import opened VmsSetup
  import opened VmsBuild
  import opened VmsSystem

  // ---- Building -----------------------------------------------------------------------

  /** A machine with one root, which shows `space`; page `t` is a blank table of it. */
  ghost predicate Stage(s: State, space: Space, used: nat, t: int, r: Role) {
    && Inv(s) && |s.roots| == 1 && View(s) == Ideal([space], 0) && s.used == used && RefSum(s) == 0
    && RoleAt(s, t) == r && At(s, t) == ZeroPage()
  }

  lemma BootStage(base: nat)
    requires base + MAX_PAGES <= PPN_LIMIT
    ensures Stage(Boot(base), EmptySpace(), 1, 0, Root(0))
  {
    BootInv(base);
    BlankMachine(Blank(base));
    assert Boot(base).ref == Blank(base).ref;
    hide Inv, RootView;
  }

  lemma MidStage(s: State, t: nat, i: nat)
    requires Stage(s, EmptySpace(), 1, t, Root(0)) && i < NUM_PTE_ENTRIES
    ensures Alloc(s, Data).Some?
    ensures var (s1, p) := Alloc(s, Data).value;
      && RoleAt(s1, t) == Root(0) && At(s1, t) == ZeroPage() && Frame(t) && Frame(p)
      && Stage(LinkTable(s1, t, i, p), EmptySpace()[i := Some(EmptyMid())], 2, p, Mid(0, i))
  {
    hide Inv, View, RootView, Unmapped;
    RoleInUse(s, t);
    NewPageShows(s);
    var (s1, p) := Alloc(s, Data).value;
    LinkTableKeeps(s1, t, i, p);
    LinkMidShows(s1, t, i, p);
    var s2 := LinkTable(s1, t, i, p);
    LinkedView(s1, s2);
  }

  lemma LowStage(s: State, t: nat, i: nat, j: nat)
    requires i < NUM_PTE_ENTRIES && j < NUM_PTE_ENTRIES
    requires Stage(s, EmptySpace()[i := Some(EmptyMid())], 2, t, Mid(0, i))
    ensures Alloc(s, Data).Some?
    ensures var (s1, p) := Alloc(s, Data).value;
      && RoleAt(s1, t) == Mid(0, i) && At(s1, t) == ZeroPage() && Frame(t) && Frame(p)
      && Stage(LinkTable(s1, t, j, p), EmptySpace()[i := Some(EmptyMid()[j := Some(EmptyLow())])], 3, p, Low(0, i, j))
  {
    hide Inv, View, RootView, Unmapped;
    RoleInUse(s, t);
    NewPageShows(s);
    var (s1, p) := Alloc(s, Data).value;
    LinkTableKeeps(s1, t, j, p);
    LinkLowShows(s1, t, j, p);
    LinkedView(s1, LinkTable(s1, t, j, p));
    var space := EmptySpace()[i := Some(EmptyMid())];
    assert space[i := Some(EmptyMid()[j := Some(EmptyLow())])]
      == EmptySpace()[i := Some(EmptyMid()[j := Some(EmptyLow())])];
  }

  /** A machine that shows one page, mapped readable and writable. */
  ghost predicate OnePage(s: State, a: Address, data: Page)
    requires a.Ok()
  {
    Inv(s) && |s.roots| == 1 && View(s) == Ideal([SinglePage(a, Mapping(true, true, data))], 0) && Claims(s) == 4
  }

  lemma PageStage(s: State, t: nat, a: Address)
    requires a.Ok()
    requires Stage(s, EmptySpace()[a.i2 := Some(EmptyMid()[a.i1 := Some(EmptyLow())])], 3, t, Low(0, a.i2, a.i1))
    ensures Alloc(s, Data).Some?
    ensures var (s1, p) := Alloc(s, Data).value;
      && RoleAt(s1, t) == Low(0, a.i2, a.i1) && At(s1, t) == ZeroPage() && Frame(t) && Frame(p)
      && OnePage(MapPage(s1, t, a.i0, p, true, true), a, ZeroPage())
  {
    hide Inv, View, RootView, Unmapped, SetMapping, HasPath;
    RoleInUse(s, t);
    NewPageShows(s);
    var (s1, p) := Alloc(s, Data).value;
    PerformKeeps(s1, DoMapPage(t, a.i0, p, true, true));
    MapPageShows(s1, t, a.i0, p, true, true);
    LinkedView(s1, MapPage(s1, t, a.i0, p, true, true));
    FirstMapping(a, Mapping(true, true, ZeroPage()));
  }

  lemma FirstMapping(a: Address, m: Mapping)
    requires a.Ok()
    ensures var space := EmptySpace()[a.i2 := Some(EmptyMid()[a.i1 := Some(EmptyLow())])];
      var a' := Address(a.i2, a.i1, a.i0, 0);
      HasPath(space, a') && SetMapping(space, a', Some(m)) == SinglePage(a, m)
  {
    var mid := EmptyMid()[a.i1 := Some(EmptyLow())];
    assert mid[a.i1 := Some(EmptyLow()[a.i0 := Some(m)])] == EmptyMid()[a.i1 := Some(EmptyLow()[a.i0 := Some(m)])];
  }

  lemma RoleInUse(s: State, t: int)
    requires Inv(s) && !RoleAt(s, t).Unused?
    ensures Frame(t) && s.inUse[t]
  {
  }

  lemma LinkedView(s: State, s': State)
    requires Inv(s) && Inv(s') && s'.root == s.root && s'.roots == s.roots && |s.roots| == 1
    ensures View(s') == Ideal(Spaces(s'), 0) && View(s) == Ideal(Spaces(s), 0)
  {
    ViewOk(s);
    ViewOk(s');
  }

  /** What a stage says about its table. */
  lemma StageFacts(s: State, space: Space, used: nat, t: int, r: Role)
    requires Stage(s, space, used, t, r) && IsTable(r)
    ensures Frame(t) && s.inUse[t] && s.role[t] == r && s.mem[t] == ZeroPage()
  {
    RoleInUse(s, t);
  }

  /** A new page, linked as a table. */
  method AddTable(m: System, t: nat, k: nat) returns (ok: bool, p: nat)
    requires m.Valid() && Frame(t) && m.inUse[t] && IsTable(m.role[t]) && k < NUM_PTE_ENTRIES && m.mem[t][k] == ZERO_PTE
    modifies m, m.mem, m.inUse
    ensures m.Valid() && ok == Alloc(old(m.Now()), Data).Some?
    ensures ok ==> Frame(p) && Frame(t)
    ensures ok ==> var (s1, q) := Alloc(old(m.Now()), Data).value;
      q == p && IsTable(s1.role[t]) && m.Now() == LinkTable(s1, t, k, p)
  {
    ok, p := m.NewPage(Data);
    if !ok { return; }
    m.LinkTable(t, k, p);
  }

  /** A new page, mapped readable and writable. */
  method AddPage(m: System, t: nat, k: nat) returns (ok: bool, p: nat)
    requires m.Valid() && Frame(t) && k < NUM_PTE_ENTRIES && m.mem[t][k] == ZERO_PTE
    modifies m, m.mem, m.inUse
    ensures m.Valid() && ok == Alloc(old(m.Now()), Data).Some?
    ensures ok ==> Frame(p)
    ensures ok ==> var (s1, q) := Alloc(old(m.Now()), Data).value;
      q == p && m.Now() == MapPage(s1, t, k, p, true, true)
  {
    ok, p := m.NewPage(Data);
    if !ok { return; }
    m.MapPage(t, k, p, true, true);
  }

  /** A new object whose only mapping is one blank page at the given address. */
  method Build(base: nat, a: Address) returns (m: System)
    requires base + MAX_PAGES <= PPN_LIMIT && a.Ok()
    ensures m.Valid() && fresh(m) && fresh(m.mem) && fresh(m.inUse) && fresh(m.ref)
    ensures OnePage(m.Now(), a, ZeroPage())
  {
    hide Stage, OnePage, Alloc, LinkTable, MapPage, Boot;
    m := new System(base);
    m.BootRoot();
    BootStage(base);
    StageFacts(m.Now(), EmptySpace(), 1, 0, Root(0));
    MidStage(m.Now(), 0, a.i2);
    var ok, mid := AddTable(m, 0, a.i2);
    StageFacts(m.Now(), EmptySpace()[a.i2 := Some(EmptyMid())], 2, mid, Mid(0, a.i2));
    LowStage(m.Now(), mid, a.i2, a.i1);
    var low;
    ok, low := AddTable(m, mid, a.i1);
    StageFacts(m.Now(), EmptySpace()[a.i2 := Some(EmptyMid()[a.i1 := Some(EmptyLow())])], 3, low, Low(0, a.i2, a.i1));
    PageStage(m.Now(), low, a);
    var page;
    ok, page := AddPage(m, low, a.i0);
  }

  // ---- Running ------------------------------------------------------------------------

  /** Two address spaces that map one page each, at the same address; `cur` is current. */
  ghost predicate TwoPages(s: State, a: Address, parent: Page, child: Page, cur: nat)
    requires a.Ok()
  {
    && Inv(s) && |s.roots| == 2 && Claims(s) <= MAX_PAGES && cur < 2
    && View(s) == Ideal([SinglePage(a, Mapping(true, true, parent)), SinglePage(a, Mapping(true, true, child))], cur)
  }

  function Written(data: Page, a: Address, v: bv32): Page
    requires Accessible(a)
  {
    WriteInt(data, a.offset, v)
  }

  lemma PageWrite(s: State, a: Address, data: Page, v: bv32)
    requires Accessible(a) && OnePage(s, a, data)
    ensures Write(s, a, v).Returned? && Write(s, a, v).value == v
      && OnePage(Write(s, a, v).s, a, Written(data, a, v))
  {
    hide Inv, View, Write, WriteInt, SinglePage, Claims, Lookup, SetMapping;
    SinglePageLookup(a, Mapping(true, true, data), Mapping(true, true, Written(data, a, v)));
    WriteRefines(s, a, v);
    assert [SinglePage(a, Mapping(true, true, data))]
        [0 := SinglePage(a, Mapping(true, true, Written(data, a, v)))]
        == [SinglePage(a, Mapping(true, true, Written(data, a, v)))];
    SameRoots(s, Write(s, a, v).s);
  }

  lemma PageRead(s: State, a: Address, data: Page)
    requires Accessible(a) && OnePage(s, a, data)
    ensures Read(s, a).Returned? && Read(s, a).value == ReadInt(data, a.offset)
    ensures OnePage(Read(s, a).s, a, data)
  {
    hide Inv, View, Read, ReadInt, SinglePage, Claims, Lookup;
    SinglePageLookup(a, Mapping(true, true, data), Mapping(true, true, data));
    ReadRefines(s, a);
    SameRoots(s, Read(s, a).s);
  }

  lemma SameRoots(s: State, s': State)
    requires |View(s').spaces| == |View(s).spaces|
    ensures |s'.roots| == |s.roots|
  {
  }

  lemma ForkedPages(s: State, a: Address, data: Page, mode: Mode)
    requires a.Ok() && OnePage(s, a, data)
    ensures Fork(s, mode).Some? && TwoPages(Fork(s, mode).value, a, data, data, 0)
    ensures FirstFree(s.inUse, 0).Some? && Fork(s, mode).value.roots == s.roots + [FirstFree(s.inUse, 0).value]
    ensures Fork(s, mode).value.root == s.root && s.roots == [s.root]
  {
    hide Inv, Fork, SinglePage, ForkNeed, ForkShares;
    ViewOk(s);
    var page := SinglePage(a, Mapping(true, true, data));
    SinglePageCost(mode, a, Mapping(true, true, data));
    ForkCounts(s, mode);
    RefsOfInv(s);
    StepRefines(s, CallFork(mode));
    ForkWorks(s, mode);
    assert [page] + [page] == [page, page];
  }

  lemma RefsOfInv(s: State)
    requires Inv(s)
    ensures RefSum(s) >= 0
  {
    RefsNonNegative(s);
  }

  lemma SwitchPages(s: State, a: Address, parent: Page, child: Page, cur: nat, cur': nat)
    requires a.Ok() && TwoPages(s, a, parent, child, cur) && cur' < 2
    ensures Frame(s.roots[cur']) && TwoPages(s.(root := s.roots[cur']), a, parent, child, cur')
  {
    SetRootWorks(s, cur');
    hide Inv, View, SinglePage;
  }

  lemma ChildWrite(s: State, a: Address, parent: Page, child: Page, v: bv32)
    requires Accessible(a) && TwoPages(s, a, parent, child, 1)
    ensures Write(s, a, v).Returned? && Write(s, a, v).value == v
    ensures TwoPages(Write(s, a, v).s, a, parent, Written(child, a, v), 1)
  {
    hide Inv, View, Write, WriteInt, SinglePage, Claims, Lookup, SetMapping;
    SinglePageLookup(a, Mapping(true, true, child), Mapping(true, true, Written(child, a, v)));
    WriteRefines(s, a, v);
    SameRoots(s, Write(s, a, v).s);
  }

  lemma ReadPages(s: State, a: Address, parent: Page, child: Page, cur: nat)
    requires Accessible(a) && TwoPages(s, a, parent, child, cur)
    ensures Read(s, a).Returned? && Read(s, a).value == ReadInt(if cur == 0 then parent else child, a.offset)
    ensures TwoPages(Read(s, a).s, a, parent, child, cur)
  {
    hide Inv, View, Read, ReadInt, SinglePage, Claims, Lookup;
    SinglePageLookup(a, Mapping(true, true, parent), Mapping(true, true, parent));
    SinglePageLookup(a, Mapping(true, true, child), Mapping(true, true, child));
    ReadRefines(s, a);
    SameRoots(s, Read(s, a).s);
  }

  /** A new object whose one page has been written and then forked. */
  method Prepare(base: nat, va: bv64, v: bv32, mode: Mode) returns (m: System, parentRoot: nat, childRoot: nat)
    requires base + MAX_PAGES <= PPN_LIMIT && Accessible(Split(va))
    ensures m.Valid() && fresh(m) && fresh(m.mem) && fresh(m.inUse) && fresh(m.ref)
    ensures var p := Written(ZeroPage(), Split(va), v); TwoPages(m.Now(), Split(va), p, p, 0)
    ensures m.roots == [parentRoot, childRoot]
  {
    hide OnePage, TwoPages, Write, WriteAt, Fork, Split, Written;
    var a := Split(va);
    m := Build(base, a);
    PageFacts(m.Now(), a, ZeroPage());
    PageWrite(m.Now(), a, ZeroPage(), v);
    WriteAtInside(m.Now(), a, v);
    var r := m.Write(va, v);
    ghost var p := Written(ZeroPage(), a, v);
    PageFacts(m.Now(), a, p);
    ForkedPages(m.Now(), a, p, mode);
    parentRoot := m.root;
    var ok;
    ok, childRoot := m.Copy(mode);
  }

  /** A read through one of the two roots. */
  method ReadThrough(m: System, root: nat, va: bv64,
    ghost parent: Page, ghost child: Page, ghost cur: nat, ghost next: nat)
    returns (v: bv32)
    requires m.Valid() && Accessible(Split(va)) && TwoPages(m.Now(), Split(va), parent, child, cur)
    requires next < 2 && next < |m.roots| && root == m.roots[next]
    modifies m`used, m`role, m`root, m.mem, m.inUse, m.ref
    ensures m.Valid() && TwoPages(m.Now(), Split(va), parent, child, next)
    ensures v == ReadInt(if next == 0 then parent else child, Split(va).offset)
  {
    hide TwoPages, Read, ReadAt, Split;
    SwitchPages(m.Now(), Split(va), parent, child, cur, next);
    m.SetRoot(root);
    PagesFacts(m.Now(), Split(va), parent, child, next);
    ReadPages(m.Now(), Split(va), parent, child, next);
    ReadAtInside(m.Now(), Split(va));
    var r := m.Read(va);
    v := r.value;
  }

  /** From a new object to two diverging address spaces: whatever the address and the kind of
      fork, the parent still reads what it wrote before the fork, and the child reads what it
      wrote after. Memory suffices on the way. */
  method ForkThenWrite(base: nat, va: bv64, v: bv32, w: bv32, mode: Mode) returns (parent: bv32, child: bv32)
    requires base + MAX_PAGES <= PPN_LIMIT && Accessible(Split(va))
    ensures parent == v && child == w
  {
    hide TwoPages, Write, WriteAt, Split, Written;
    var a := Split(va);
    var m, parentRoot, childRoot := Prepare(base, va, v, mode);
    ghost var p := Written(ZeroPage(), a, v);
    ghost var c := Written(p, a, w);
    SwitchPages(m.Now(), a, p, p, 0, 1);
    m.SetRoot(childRoot);
    PagesFacts(m.Now(), a, p, p, 1);
    ChildWrite(m.Now(), a, p, p, w);
    WriteAtInside(m.Now(), a, w);
    var r := m.Write(va, w);
    parent := ReadThrough(m, parentRoot, va, p, c, 1, 0);
    child := ReadThrough(m, childRoot, va, p, c, 0, 1);
    WrittenIsRead(ZeroPage(), a, v);
    WrittenIsRead(p, a, w);
  }

  // ---- The sample program -------------------------------------------------------------

  lemma SampleBytes()
    ensures Digit(0) == 0 && Digit(1) == 1 && Digit(5) == 5 && Digit(0xBC) == 188 && Digit(0x23) == 0x23
  {
  }

  lemma SampleWords()
    ensures Join(0, 0, 0, 0, 0, 0) == 0 && Join(5, 0, 0, 0, 0, 0) == 5
    ensures Join(0xBC, 0, 0, 0, 0, 0) == 188 && Join(0x23, 1, 0, 0, 0, 0) == 0x123
  {
  }

  lemma SampleNumbers()
    ensures Number(0) == 0 && Number(5) == 5 && Number(188) == 188 && Number(0x123) == 0x123
  {
    hide Number, Join, Digit;
    SampleBytes();
    SampleWords();
    JoinBytes(0, 0, 0, 0, 0, 0);
    JoinBytes(5, 0, 0, 0, 0, 0);
    JoinBytes(0xBC, 0, 0, 0, 0, 0);
    JoinBytes(0x23, 1, 0, 0, 0, 0);
  }

  /** The address of the sample program leads through entries 0, 5 and 188. */
  lemma SampleAddress()
    ensures Split(0xABC123) == Address(0, 5, 188, 0x123)
  {
    hide Split, Number;
    SampleNumbers();
    SplitOfParts(0, 5, 188, 0x123, 0);
    assert (0 << 30) | (5 << 21) | (188 << 12) | 0x123 | (0 << 39) == 0xABC123 as bv64;
  }

  /** An int written through an address and read back. */
  method WriteThenRead(m: System, va: bv64, v: bv32, ghost data: Page) returns (r: bv32)
    requires m.Valid() && Accessible(Split(va)) && OnePage(m.Now(), Split(va), data)
    modifies m`used, m`role, m.mem, m.inUse, m.ref
    ensures m.Valid() && OnePage(m.Now(), Split(va), Written(data, Split(va), v)) && r == v
  {
    hide OnePage, Write, Read, WriteAt, ReadAt, Split, Written;
    ghost var a := Split(va);
    PageFacts(m.Now(), a, data);
    PageWrite(m.Now(), a, data, v);
    WriteAtInside(m.Now(), a, v);
    var w := m.Write(va, v);
    ghost var written := Written(data, a, v);
    PageFacts(m.Now(), a, written);
    PageRead(m.Now(), a, written);
    ReadAtInside(m.Now(), a);
    WrittenIsRead(data, a, v);
    var e := m.Read(va);
    r := e.value;
  }

  /** main of the sample program: tables at entries 0, 5 and 188, then 1 and 2 written to
      0xABC123 and read back. */
  method SampleProgram(base: nat) returns (first: bv32, second: bv32)
    requires base + MAX_PAGES <= PPN_LIMIT
    ensures first == 1 && second == 2
  {
    hide OnePage, Split, Written;
    SampleAddress();
    var m := Build(base, Address(0, 5, 188, 0x123));
    first := WriteThenRead(m, 0xABC123, 1, ZeroPage());
    second := WriteThenRead(m, 0xABC123, 2, Written(ZeroPage(), Split(0xABC123), 1));
  }

  lemma PageFacts(s: State, a: Address, data: Page)
    requires a.Ok() && OnePage(s, a, data)
    ensures Inv(s)
  {
  }

  lemma PagesFacts(s: State, a: Address, parent: Page, child: Page, cur: nat)
    requires a.Ok() && TwoPages(s, a, parent, child, cur)
    ensures Inv(s)
  {
  }

  lemma WrittenIsRead(data: Page, a: Address, v: bv32)
    requires Accessible(a)
    ensures ReadInt(Written(data, a, v), a.offset) == v
  {
    ReadWritten(data, a.offset, v);
  }
}
