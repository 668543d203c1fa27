/** What building tables does to the private memories, and the smallest address space. */
module VmsBuild {
  import opened Wrappers
  import opened VmsAddress
  import opened VmsMachine
  import opened VmsSteps
  import opened VmsSpace
  import opened VmsFork
  import opened VmsCount
  import opened VmsMmu
  import opened VmsIdeal
  import opened VmsRun
  import opened VmsSetup

  // ---- Pages --------------------------------------------------------------------------

  /** A new page is spare, and no address space shows it. */
  lemma NewPageShows(s: State)
    requires Inv(s) && s.used < MAX_PAGES
    ensures Alloc(s, Data).Some?
    ensures var (s', p) := Alloc(s, Data).value;
      && Inv(s') && Spare(s', p) && Unmapped(s', p) && !s.inUse[p] && s'.root == s.root
      && View(s') == View(s) && s'.used == s.used + 1 && RefSum(s') == RefSum(s)
      && (forall q :: 0 <= q < MAX_PAGES && s.inUse[q] ==> s'.role[q] == s.role[q] && s'.mem[q] == s.mem[q])
  {
    AllocSucceeds(s);
    var p := FirstFree(s.inUse, 0).value;
    var s' := Take(s, p, Data);
    NewPageKeeps(s);
    NewPageUnmapped(s, s', p);
    hide Inv, RootView;
    RootInUse(s);
    forall h | 0 <= h < |s.roots| ensures RootView(s', s.roots[h]) == RootView(s, s.roots[h]) {
      SameMemorySameView(s, s', s.roots[h]);
    }
  }

  lemma RootInUse(s: State)
    requires Inv(s)
    ensures s.inUse[s.root] && s.role[s.root].Root?
  {
  }

  lemma NewPageUnmapped(s: State, s': State, p: nat)
    requires Inv(s) && Fresh(s, p) && s' == Take(s, p, Data)
    ensures Spare(s', p) && Unmapped(s', p)
  {
    TakenIsUnmapped(s, p, ZeroPage());
    assert TakeData(s, p, ZeroPage()).mem == s'.mem;
    assert TakeData(s, p, ZeroPage()) == s';
  }

  // ---- Tables -------------------------------------------------------------------------

  function EmptyMid(): MidSpace { seq(NUM_PTE_ENTRIES, _ => None) }
  function EmptyLow(): LowSpace { seq(NUM_PTE_ENTRIES, _ => None) }

  /** Memory as it is once a table has been linked; roles do not matter to what is shown. */
  lemma LinkedMemory(s: State, t: nat, k: nat, p: nat) returns (s1: State)
    requires Frame(t) && IsTable(s.role[t]) && Frame(p) && k < NUM_PTE_ENTRIES
    ensures s1 == Put(s, t, k, TableEntry(s, p)) && Grows(s, s1, t)
    ensures LinkTable(s, t, k, p).mem == s1.mem && LinkTable(s, t, k, p).base == s1.base
    ensures LinkTable(s, t, k, p).roots == s1.roots
  {
    s1 := Put(s, t, k, TableEntry(s, p));
  }

  /** Hanging a middle table below a root gives one of its regions an empty table. */
  lemma LinkMidShows(s: State, t: nat, k: nat, p: nat)
    requires Inv(s) && Proper(s, DoLinkTable(t, k, p)) && s.role[t].Root?
    ensures var h := s.role[t].h;
      h < |s.roots| && Spaces(LinkTable(s, t, k, p)) == Spaces(s)[h := Spaces(s)[h][k := Some(EmptyMid())]]
  {
    var h, s' := s.role[t].h, LinkTable(s, t, k, p);
    InvFacts(s);
    assert s.roots[h] == t;
    var s1 := LinkedMemory(s, t, k, p);
    hide Inv, Tree, LinkTable, RootView, Grows, Put;
    forall g | 0 <= g < |s.roots|
      ensures RootView(s', s.roots[g]) == if g == h
        then RootView(s, t)[k := Some(EmptyMid())] else RootView(s, s.roots[g])
    {
      SameMemorySameView(s1, s', s.roots[g]);
      RootRoles(s, g);
      if g == h { MidLinkedBelow(s, s1, t, k, p); } else { RootViewKept(s, s1, s.roots[g], t); }
    }
  }

  lemma RootRoles(s: State, g: nat)
    requires RootsOk(s) && g < |s.roots|
    ensures RoleAt(s, s.roots[g]) == Root(g)
  {
  }

  lemma MidLinkedBelow(s: State, s1: State, t: nat, k: nat, p: nat)
    requires Tree(s) && Frame(t) && s.role[t].Root? && k < NUM_PTE_ENTRIES && Spare(s, p)
    requires s1 == Put(s, t, k, TableEntry(s, p)) && Grows(s, s1, t)
    ensures RootView(s1, t) == RootView(s, t)[k := Some(EmptyMid())]
  {
    forall i | 0 <= i < NUM_PTE_ENTRIES && i != k ensures ViewMid(s1, At(s1, t)[i]) == ViewMid(s, At(s, t)[i]) {
      EntryFacts(s, t, i);
      if s.mem[t][i].v { MidViewKept(s, s1, Target(s, s.mem[t][i]), t); }
    }
    assert MidView(s1, p) == EmptyMid();
  }

  /** Hanging a leaf table below a middle table gives one of its regions an empty table. */
  lemma LinkLowShows(s: State, t: nat, k: nat, p: nat)
    requires Inv(s) && Proper(s, DoLinkTable(t, k, p)) && s.role[t].Mid?
    ensures var h, i := s.role[t].h, s.role[t].i;
      && h < |s.roots| && i < NUM_PTE_ENTRIES && Spaces(s)[h][i].Some?
      && Spaces(LinkTable(s, t, k, p))
      == Spaces(s)[h := Spaces(s)[h][i := Some(Spaces(s)[h][i].value[k := Some(EmptyLow())])]]
  {
    var h, i, s' := s.role[t].h, s.role[t].i, LinkTable(s, t, k, p);
    InvFacts(s);
    PathToMidTable(s, t);
    var s1 := LinkedMemory(s, t, k, p);
    hide Inv, Tree, LinkTable, RootView, Grows, Put, MidView;
    RootViewAt(s, s.roots[h], i);
    forall g | 0 <= g < |s.roots|
      ensures RootView(s', s.roots[g])
        == if g == h
          then RootView(s, s.roots[h])[i := Some(MidView(s, t)[k := Some(EmptyLow())])] else RootView(s, s.roots[g])
    {
      SameMemorySameView(s1, s', s.roots[g]);
      RootRoles(s, g);
      if g == h { LowLinkedBelow(s, s1, s.roots[h], t, k, p); } else { OtherTreeKept(s, s1, s.roots[g], t); }
    }
  }

  lemma PathToMidTable(s: State, t: nat)
    requires Inv(s) && Frame(t) && s.role[t].Mid?
    ensures var h, i := s.role[t].h, s.role[t].i;
      && h < |s.roots| && Frame(s.roots[h]) && i < NUM_PTE_ENTRIES
      && s.mem[s.roots[h]][i].v && Target(s, s.mem[s.roots[h]][i]) == t
  {
    assert Linked(s, t);
    var r :| LinksTo(s, r, Root(s.role[t].h), s.role[t].i, t);
    assert s.roots[s.role[t].h] == r;
  }

  lemma OtherTreeKept(s: State, s1: State, r: int, t: nat)
    requires Tree(s) && Grows(s, s1, t) && RoleAt(s, r).Root? && RoleAt(s, t).Mid? && s.role[r].h != s.role[t].h
    ensures RootView(s1, r) == RootView(s, r)
  {
    EntryFacts(s, r, 0);
    GrowsAt(s, s1, t, r);
    forall i | 0 <= i < NUM_PTE_ENTRIES ensures ViewMid(s1, At(s1, r)[i]) == ViewMid(s, At(s, r)[i]) {
      EntryFacts(s, r, i);
      if s.mem[r][i].v { MidViewKept(s, s1, Target(s, s.mem[r][i]), t); }
    }
  }

  lemma LowLinkedBelow(s: State, s1: State, r: int, t: nat, k: nat, p: nat)
    requires Tree(s) && RoleAt(s, r).Root? && Frame(t) && s.role[t].Mid? && k < NUM_PTE_ENTRIES && Spare(s, p)
    requires s.role[t].i < NUM_PTE_ENTRIES && s.mem[r][s.role[t].i].v && Target(s, s.mem[r][s.role[t].i]) == t
    requires s1 == Put(s, t, k, TableEntry(s, p)) && Grows(s, s1, t)
    ensures RootView(s1, r) == RootView(s, r)[s.role[t].i := Some(MidView(s, t)[k := Some(EmptyLow())])]
  {
    LowLinkedMid(s, s1, t, k, p);
    forall i | 0 <= i < NUM_PTE_ENTRIES && i != s.role[t].i
      ensures ViewMid(s1, At(s1, r)[i]) == ViewMid(s, At(s, r)[i]) {
      EntryFacts(s, r, i);
      if s.mem[r][i].v { MidViewKept(s, s1, Target(s, s.mem[r][i]), t); }
    }
    hide Tree, Grows;
  }

  lemma LowLinkedMid(s: State, s1: State, t: nat, k: nat, p: nat)
    requires Tree(s) && Frame(t) && s.role[t].Mid? && k < NUM_PTE_ENTRIES && Spare(s, p)
    requires s1 == Put(s, t, k, TableEntry(s, p)) && Grows(s, s1, t)
    ensures MidView(s1, t) == MidView(s, t)[k := Some(EmptyLow())]
  {
    forall j | 0 <= j < NUM_PTE_ENTRIES && j != k ensures ViewLow(s1, At(s1, t)[j]) == ViewLow(s, At(s, t)[j]) {
      EntryFacts(s, t, j);
      if s.mem[t][j].v { LowViewKept(s, s1, Target(s, s.mem[t][j]), t); }
    }
    assert LowView(s1, p) == EmptyLow();
  }

  // ---- An address space with one page -------------------------------------------------

  function SinglePage(a: Address, m: Mapping): Space
    requires a.Ok()
  {
    EmptySpace()[a.i2 := Some(EmptyMid()[a.i1 := Some(EmptyLow()[a.i0 := Some(m)])])]
  }

  lemma SinglePageLookup(a: Address, m: Mapping, m': Mapping)
    requires a.Ok()
    ensures HasPath(SinglePage(a, m), a) && Lookup(SinglePage(a, m), a) == Some(m)
    ensures SetMapping(SinglePage(a, m), a, Some(m')) == SinglePage(a, m')
  {
    var low := EmptyLow()[a.i0 := Some(m)];
    assert low[a.i0 := Some(m')] == EmptyLow()[a.i0 := Some(m')];
    var mid := EmptyMid()[a.i1 := Some(low)];
    assert mid[a.i1 := Some(low[a.i0 := Some(m')])] == EmptyMid()[a.i1 := Some(EmptyLow()[a.i0 := Some(m')])];
  }

  lemma {:induction false} SingleLowCost(mode: Mode, i: nat, m: Mapping, n: nat)
    requires i < NUM_PTE_ENTRIES && n <= NUM_PTE_ENTRIES
    ensures LowNeed(mode, EmptyLow()[i := Some(m)], n) == if i < n && mode == Eager then 1 else 0
    ensures LowShares(mode, EmptyLow()[i := Some(m)], n) <= if i < n then 1 else 0
  {
    if n > 0 { SingleLowCost(mode, i, m, n - 1); }
  }

  lemma {:induction false} SingleMidCost(mode: Mode, i: nat, low: LowSpace, n: nat)
    requires i < NUM_PTE_ENTRIES && n <= NUM_PTE_ENTRIES
    ensures MidNeed(mode, EmptyMid()[i := Some(low)], n) == if i < n then LowTreeNeed(mode, Some(low)) else 0
    ensures MidShares(mode, EmptyMid()[i := Some(low)], n) == if i < n then LowTreeShares(mode, Some(low)) else 0
  {
    if n > 0 { SingleMidCost(mode, i, low, n - 1); }
  }

  lemma {:induction false} SingleSpaceCost(mode: Mode, i: nat, mid: MidSpace, n: nat)
    requires i < NUM_PTE_ENTRIES && n <= NUM_PTE_ENTRIES
    ensures SpaceNeed(mode, EmptySpace()[i := Some(mid)], n) == if i < n then MidTreeNeed(mode, Some(mid)) else 0
    ensures SpaceShares(mode, EmptySpace()[i := Some(mid)], n) == if i < n then MidTreeShares(mode, Some(mid)) else 0
  {
    if n > 0 { SingleSpaceCost(mode, i, mid, n - 1); }
  }

  /** A fork of one page takes three tables and, when eager, the page. */
  lemma SinglePageCost(mode: Mode, a: Address, m: Mapping)
    requires a.Ok()
    ensures ForkNeed(mode, SinglePage(a, m)) == 3 + (if mode == Eager then 1 else 0)
    ensures ForkShares(mode, SinglePage(a, m)) <= 1
  {
    var low := EmptyLow()[a.i0 := Some(m)];
    var mid := EmptyMid()[a.i1 := Some(low)];
    SingleLowCost(mode, a.i0, m, NUM_PTE_ENTRIES);
    SingleMidCost(mode, a.i1, low, NUM_PTE_ENTRIES);
    SingleSpaceCost(mode, a.i2, mid, NUM_PTE_ENTRIES);
    hide LowNeed, MidNeed, SpaceNeed, LowShares, MidShares, SpaceShares;
  }
}
