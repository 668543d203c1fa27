/** Which states a program can bring about: from the first page on, any mixture of page
    allocation, table building, reads, writes and forks. */
module VmsSetup {
  import opened Binaries
  import opened Wrappers
  import opened Sums
  import opened VmsAddress
  import opened VmsBytes
  import opened VmsPte
  import opened VmsMachine
  import opened VmsSteps
  import opened VmsSpace
  import opened VmsCount
  import opened VmsMmu
  import opened VmsIdeal
  import opened VmsRun

  // ---- The start ----------------------------------------------------------------------

  /** After vms_init, with the page number of the mapped area. */
  function Blank(base: nat): State
    requires base + MAX_PAGES <= PPN_LIMIT
  {
    Machine(base, seq(MAX_PAGES, _ => ZeroPage()), seq(MAX_PAGES, _ => false), 0,
            seq(MAX_PAGES, _ => 0), 0, [], seq(MAX_PAGES, _ => Unused))
  }

  lemma BlankMachine(s: State)
    requires s.mem == seq(MAX_PAGES, _ => ZeroPage()) && s.inUse == seq(MAX_PAGES, _ => false)
    requires s.ref == seq(MAX_PAGES, _ => 0) && s.role == seq(MAX_PAGES, _ => Unused) && s.used == 0
    ensures FreeFramesBlank(s) && TablesOk(s) && SharingOk(s) && CountsOk(s) && UsedOk(s) && RefSum(s) == 0
  {
    assert FramesInUse(s) == {};
    forall q | 0 <= q < MAX_PAGES ensures Customs(s, q) == {} {}
    SumOfZeros(s.ref);
  }

  /** The first page becomes the current root table. */
  function Boot(base: nat): State
    requires base + MAX_PAGES <= PPN_LIMIT
  {
    TakeRoot(Blank(base), 0)
  }

  lemma BootInv(base: nat)
    requires base + MAX_PAGES <= PPN_LIMIT
    ensures Inv(Boot(base)) && Boot(base).used == 1 && Boot(base).roots == [0]
    ensures Spaces(Boot(base)) == [EmptySpace()]
  {
    var s, s' := Blank(base), Boot(base);
    BlankMachine(s);
    TakeCountsUse(s, 0, Root(0));
    TablesKept(s, s');
    SameLeavesKeep(s, s');
    assert forall p :: 0 <= p < MAX_PAGES ==> s'.role[p] == if p == 0 then Root(0) else Unused;
    EmptyRootView(s', 0);
  }

  // ---- Building tables ----------------------------------------------------------------

  /** A page that was allocated and not used yet. */
  predicate Spare(s: State, p: int) { Frame(p) && s.role[p] == Data && s.mem[p] == ZeroPage() && s.ref[p] == 0 }

  /** From now on, page `p` serves as a table. */
  function Relabel(s: State, p: nat, role: Role): State
    requires Frame(p)
  {
    s.(role := s.role[p := role])
  }

  lemma RelabelKeeps(s: State, p: nat, role: Role, open: set<int>)
    requires Building(s, open) && Spare(s, p) && Unmapped(s, p) && (role.Mid? || role.Low?)
    ensures Building(Relabel(s, p, role), open + {p})
  {
    var s' := Relabel(s, p, role);
    RelabelTables(s, s', p);
    assert SameLeaves(s, s');
    SameLeavesKeep(s, s');
    LinksKept(s, s', open + {p}, open);
    assert FramesInUse(s') == FramesInUse(s);
  }

  lemma RelabelTables(s: State, s': State, p: nat)
    requires FreeFramesBlank(s) && TablesOk(s) && Spare(s, p) && Unmapped(s, p)
    requires s' == Relabel(s, p, s'.role[p])
    ensures TablesOk(s')
  {
    forall t, k | Frame(t) && IsTable(s'.role[t]) && 0 <= k < NUM_PTE_ENTRIES
      ensures EntryOk(s', s'.role[t], k, s'.mem[t][k])
    {
      if t != p {
        assert EntryOk(s, s.role[t], k, s.mem[t][k]);
        if s.mem[t][k].v && Target(s, s.mem[t][k]) == p { assert Leaf(s, t, k); }
      }
    }
  }

  /** A page becomes the root table of a new, empty address space. */
  function DeclareRoot(s: State, p: nat): State
    requires Frame(p)
  {
    Relabel(s, p, Root(|s.roots|)).(roots := s.roots + [p])
  }

  /** The new address space is empty, the others are as they were, and the new root may be
      made the current one. */
  lemma DeclareRootKeeps(s: State, p: nat)
    requires Inv(s) && Spare(s, p) && Unmapped(s, p)
    ensures Inv(DeclareRoot(s, p)) && Inv(DeclareRoot(s, p).(root := p))
    ensures Spaces(DeclareRoot(s, p)) == Spaces(s) + [EmptySpace()]
  {
    hide FreeFramesBlank, TablesOk, SharingOk, CountsOk, UsedOk, RootsOk, LinksOk, Unmapped, RootView;
    var s', s1 := DeclareRoot(s, p), Relabel(s, p, Root(|s.roots|));
    RelabelTables(s, s1, p);
    DeclaredTables(s1, s');
    DeclaredLeaves(s, s', p);
    DeclaredRoots(s, s', p);
    LinksKept(s, s', {}, {});
    SetRootWorks(s', |s.roots|);
    EmptyRootView(s', p);
    forall h | 0 <= h < |s.roots| ensures RootView(s', s.roots[h]) == RootView(s, s.roots[h]) {
      SameMemorySameView(s, s', s.roots[h]);
    }
  }

  function EmptySpace(): Space { seq(NUM_PTE_ENTRIES, _ => None) }

  lemma EmptyRootView(s: State, p: int)
    requires At(s, p) == ZeroPage()
    ensures RootView(s, p) == EmptySpace()
  {
  }

  lemma DeclaredLeaves(s: State, s': State, p: nat)
    requires SharingOk(s) && CountsOk(s) && Spare(s, p) && s' == DeclareRoot(s, p)
    ensures SharingOk(s') && CountsOk(s')
  {
    hide SharingOk, CountsOk;
    assert SameLeaves(s, s');
    SameLeavesKeep(s, s');
  }

  lemma DeclaredRoots(s: State, s': State, p: nat)
    requires FreeFramesBlank(s) && UsedOk(s) && RootsOk(s) && Spare(s, p) && s' == DeclareRoot(s, p)
    ensures FreeFramesBlank(s') && UsedOk(s') && RootsOk(s')
  {
    assert FramesInUse(s') == FramesInUse(s);
  }

  lemma DeclaredTables(s: State, s': State)
    requires TablesOk(s) && s' == s.(roots := s'.roots)
    ensures TablesOk(s')
  {
    forall t, k | Frame(t) && IsTable(s'.role[t]) && 0 <= k < NUM_PTE_ENTRIES
      ensures EntryOk(s', s'.role[t], k, s'.mem[t][k])
    {
      assert EntryOk(s, s.role[t], k, s.mem[t][k]);
    }
  }

  /** vms_pte_set_ppn and vms_pte_valid_set on a blank entry. */
  function TableEntry(s: State, p: nat): Pte
    requires Frame(p)
  {
    Redirect(s, ZERO_PTE, p).(v := true)
  }

  function LinkTable(s: State, t: nat, k: nat, p: nat): State
    requires Frame(t) && Frame(p) && k < NUM_PTE_ENTRIES && IsTable(s.role[t])
  {
    Put(Relabel(s, p, ChildRole(s.role[t], k)), t, k, TableEntry(s, p))
  }

  lemma LinkTableKeeps(s: State, t: nat, k: nat, p: nat)
    requires Inv(s) && Spare(s, p) && Unmapped(s, p)
    requires Frame(t) && (s.role[t].Root? || s.role[t].Mid?) && k < NUM_PTE_ENTRIES && !s.mem[t][k].v
    ensures Inv(LinkTable(s, t, k, p))
    ensures LinkTable(s, t, k, p).mem[t][k] == Pte(s.base + p, true, false, false, false, 0)
  {
    var role := ChildRole(s.role[t], k);
    RelabelKeeps(s, p, role, {});
    var s1 := Relabel(s, p, role);
    hide Building, Relabel;
    LinkKeeps(s1, t, k, TableEntry(s, p), {} + {p}, p);
    assert ({} + {p}) - {p} == {};
  }

  /** A leaf entry for a page that nobody maps. */
  function MapPage(s: State, t: nat, k: nat, p: nat, r: bool, w: bool): State
    requires Frame(t) && Frame(p) && k < NUM_PTE_ENTRIES
  {
    Put(s, t, k, TableEntry(s, p).(r := r, w := w))
  }

  lemma UnmappedHasNoRef(s: State, p: nat)
    requires CountsOk(s) && Frame(p) && Unmapped(s, p)
    ensures s.ref[p] == 0
  {
    assert Customs(s, p) == {};
  }

  /** vms_free_page */
  function Release(s: State, p: nat): State
    requires Frame(p)
  {
    s.(inUse := s.inUse[p := false], mem := s.mem[p := ZeroPage()], used := s.used - 1, role := s.role[p := Unused])
  }

  /** Freeing a page that no entry maps keeps everything in order. */
  lemma ReleaseKeeps(s: State, p: nat)
    requires Inv(s) && Frame(p) && s.role[p] == Data && Unmapped(s, p)
    ensures Inv(Release(s, p))
  {
    hide FreeFramesBlank, TablesOk, SharingOk, CountsOk, UsedOk, RootsOk, LinksOk, Unmapped;
    var s' := Release(s, p);
    ReleasedTables(s, s', p);
    ReleasedFrames(s, s', p);
    ReleasedLeaves(s, s', p);
    ReleasedLinks(s, s', p);
  }

  lemma ReleasedFrames(s: State, s': State, p: nat)
    requires FreeFramesBlank(s) && CountsOk(s) && UsedOk(s) && RootsOk(s)
    requires Frame(p) && s.role[p] == Data && Unmapped(s, p) && s' == Release(s, p)
    ensures FreeFramesBlank(s') && UsedOk(s') && RootsOk(s')
  {
    UnmappedHasNoRef(s, p);
    assert s.inUse[p];
    assert FramesInUse(s') == FramesInUse(s) - {p};
    hide CountsOk, Unmapped;
  }

  lemma ReleasedLeaves(s: State, s': State, p: nat)
    requires SharingOk(s) && CountsOk(s) && Frame(p) && s.role[p] == Data && s' == Release(s, p)
    ensures SharingOk(s') && CountsOk(s')
  {
    hide SharingOk, CountsOk;
    assert SameLeaves(s, s');
    SameLeavesKeep(s, s');
  }

  lemma ReleasedLinks(s: State, s': State, p: nat)
    requires LinksOk(s, {}) && Frame(p) && s.role[p] == Data && s' == Release(s, p)
    ensures LinksOk(s', {})
  {
    LinksKept(s, s', {p}, {});
    assert Linked(s', p);
  }

  lemma ReleasedTables(s: State, s': State, p: nat)
    requires TablesOk(s) && Frame(p) && s.role[p] == Data && Unmapped(s, p) && s' == Release(s, p)
    ensures TablesOk(s')
  {
    forall t, k | Frame(t) && IsTable(s'.role[t]) && 0 <= k < NUM_PTE_ENTRIES
      ensures EntryOk(s', s'.role[t], k, s'.mem[t][k])
    {
      assert EntryOk(s, s.role[t], k, s.mem[t][k]);
      if s.mem[t][k].v && Target(s, s.mem[t][k]) == p { assert Leaf(s, t, k); }
    }
  }

  /** A page that is taken, filled and freed again leaves no trace. */
  lemma ReleaseUndoesTake(s: State, p: nat, data: Page)
    requires FreeFramesBlank(s) && Fresh(s, p)
    ensures Release(TakeData(s, p, data), p) == s
  {
    var s' := Release(TakeData(s, p, data), p);
    assert s'.mem == s.mem && s'.inUse == s.inUse && s'.role == s.role;
  }

  // ---- Programs that build their tables -----------------------------------------------

  datatype Action =
    | DoCall(c: Call) | DoNewPage | DoFreePage(p: nat) | DoDeclareRoot(p: nat) | DoLinkTable(t: nat, k: nat, p: nat)
    | DoMapPage(t: nat, k: nat, p: nat, r: bool, w: bool) | DoMapAgain(t: nat, k: nat, t0: nat, k0: nat)

  /** What the interface asks of its caller: a page is put to one use, entries are filled once,
      a page is mapped twice only read-only, and freed only while no entry maps it. */
  ghost predicate Proper(s: State, a: Action) {
    match a
    case DoCall(c) => CallOk(c)
    case DoNewPage => true
    case DoFreePage(p) => Frame(p) && s.role[p] == Data && Unmapped(s, p)
    case DoDeclareRoot(p) => Spare(s, p) && Unmapped(s, p)
    case DoLinkTable(t, k, p) =>
      && Spare(s, p) && Unmapped(s, p) && Frame(t) && (s.role[t].Root? || s.role[t].Mid?)
      && k < NUM_PTE_ENTRIES && !s.mem[t][k].v
    case DoMapPage(t, k, p, r, w) =>
      && Frame(p) && s.role[p] == Data && Unmapped(s, p) && Frame(t) && s.role[t].Low?
      && k < NUM_PTE_ENTRIES && !s.mem[t][k].v
    case DoMapAgain(t, k, t0, k0) =>
      && Frame(t) && s.role[t].Low? && k < NUM_PTE_ENTRIES && !s.mem[t][k].v
      && Leaf(s, t0, k0) && !s.mem[t0][k0].w && !s.mem[t0][k0].c
  }

  /** None when the process ends. */
  ghost function Perform(s: State, a: Action): Option<State>
    requires Proper(s, a)
  {
    match a
    case DoCall(c) => (match Step(s, c) case Goes(_, s') => Some(s') case Stops(_) => None)
    case DoNewPage => (match Alloc(s, Data) case None => None case Some(r) => Some(r.0))
    case DoFreePage(p) => Some(Release(s, p))
    case DoDeclareRoot(p) => Some(DeclareRoot(s, p))
    case DoLinkTable(t, k, p) => Some(LinkTable(s, t, k, p))
    case DoMapPage(t, k, p, r, w) => Some(MapPage(s, t, k, p, r, w))
    case DoMapAgain(t, k, t0, k0) => Some(Put(s, t, k, s.mem[t0][k0]))
  }

  lemma PerformKeeps(s: State, a: Action)
    requires Inv(s) && Proper(s, a)
    ensures Perform(s, a).Some? ==> Inv(Perform(s, a).value)
  {
    match a
    case DoCall(c) => StepRefines(s, c);
    case DoNewPage => NewPageKeeps(s);
    case DoFreePage(p) => ReleaseKeeps(s, p);
    case DoDeclareRoot(p) => DeclareRootKeeps(s, p);
    case DoLinkTable(t, k, p) => LinkTableKeeps(s, t, k, p);
    case DoMapPage(t, k, p, r, w) =>
      UnmappedHasNoRef(s, p);
      PutPrivate(s, t, k, TableEntry(s, p).(r := r, w := w), {});
    case DoMapAgain(t, k, t0, k0) => PutReadOnly(s, t, k, t0, k0, {});
  }

  lemma NewPageKeeps(s: State)
    requires Inv(s)
    ensures Alloc(s, Data).Some? ==> Inv(Alloc(s, Data).value.0)
  {
    AllocSucceeds(s);
    if Alloc(s, Data).Some? { TakeKeeps(s, Alloc(s, Data).value.1, Data, {}); }
  }

  /** The states that programs bring about. */
  ghost predicate Reaches(s: State, actions: seq<Action>, s': State)
    decreases |actions|
  {
    if actions == [] then s' == s else
    Proper(s, actions[0]) && Perform(s, actions[0]).Some? && Reaches(Perform(s, actions[0]).value, actions[1..], s')
  }

  /** In every reachable state the invariant holds: tables form disjoint trees, writable pages
      are private, each counter is the number of custom mappings beyond the first, and the
      number of used pages is right. */
  lemma {:induction false} EveryReachableStateIsWellFormed(s: State, actions: seq<Action>, s': State)
    requires Inv(s) && Reaches(s, actions, s')
    ensures Inv(s')
    decreases |actions|
  {
    hide Inv, Proper, Perform;
    if actions != [] {
      PerformKeeps(s, actions[0]);
      EveryReachableStateIsWellFormed(Perform(s, actions[0]).value, actions[1..], s');
    }
  }

  /** From the start of the process on. */
  lemma ReachableFromBoot(base: nat, actions: seq<Action>, s': State)
    requires base + MAX_PAGES <= PPN_LIMIT && Reaches(Boot(base), actions, s')
    ensures Inv(s') && s'.used == |FramesInUse(s')| && RefSum(s') >= 0
    ensures forall q :: 0 <= q < MAX_PAGES ==> s'.ref[q] == Excess(|Customs(s', q)|)
  {
    BootInv(base);
    EveryReachableStateIsWellFormed(Boot(base), actions, s');
    assert forall q :: 0 <= q < MAX_PAGES ==> s'.ref[q] >= 0;
    SumNonNegative(s'.ref, 0);
  }

  // ---- What a mapped page is good for -------------------------------------------------

  lemma LeafTablePosition(s: State, t: int)
    requires Inv(s) && RoleAt(s, t).Low?
    ensures s.role[t].i < NUM_PTE_ENTRIES && s.role[t].j < NUM_PTE_ENTRIES
  {
    assert Linked(s, t);
    var m :| LinksTo(s, m, Mid(s.role[t].h, s.role[t].i), s.role[t].j, t);
    assert Linked(s, m);
  }

  /** The position that the role of a leaf table names is where the walk finds it. */
  lemma PathToLeafTable(s: State, t: int, h: nat, a: Address)
    requires Inv(s) && RoleAt(s, t) == Low(h, a.i2, a.i1) && a.Ok()
    ensures h < |s.roots| && LeafTable(s, s.roots[h], a) == Some(t)
  {
    assert Linked(s, t);
    var m :| LinksTo(s, m, Mid(h, a.i2), a.i1, t);
    assert Linked(s, m);
    var r :| LinksTo(s, r, Root(h), a.i2, m);
    assert s.roots[h] == r;
  }

  /** Mapping a page changes one page of one address space, which shows its contents. */
  lemma MapPageShows(s: State, t: nat, k: nat, p: nat, r: bool, w: bool)
    requires Inv(s) && Proper(s, DoMapPage(t, k, p, r, w))
    ensures var s', h, a := MapPage(s, t, k, p, r, w), s.role[t].h, Address(s.role[t].i, s.role[t].j, k, 0);
      && h < |s.roots| && HasPath(Spaces(s)[h], a) && Lookup(Spaces(s)[h], a) == None
      && Spaces(s') == Spaces(s)[h := SetMapping(Spaces(s)[h], a, Some(Mapping(r, w, s.mem[p])))]
      && s'.mem[t][k] == Pte(s.base + p, true, r, w, false, 0)
  {
    hide Inv, Tree, ChangesLeaf, LeafTable, Unmapped, RootsOk, UsedOk, Lookup, HasPath, RootView;
    var s', h, a := MapPage(s, t, k, p, r, w), s.role[t].h, Address(s.role[t].i, s.role[t].j, k, 0);
    LeafTablePosition(s, t);
    PathToLeafTable(s, t, h, a);
    InvFacts(s);
    LookupIsDescent(s, s.roots[h], a);
    MapChangesLeaf(s, s', t, k, p);
    SpacesAfterChange(s, s', h, a);
  }

  lemma MapChangesLeaf(s: State, s': State, t: nat, k: nat, p: nat)
    requires Tree(s) && Frame(t) && s.role[t].Low? && Frame(p) && s.role[p] == Data && k < NUM_PTE_ENTRIES
    requires s' == Put(s, t, k, s'.mem[t][k])
    ensures ChangesLeaf(s, s', t, k) && At(s', p) == At(s, p)
  {
    forall q, i | 0 <= q < MAX_PAGES && s.role[q].Low? && 0 <= i < NUM_PTE_ENTRIES && (q, i) != (t, k)
      ensures ViewLeaf(s', s'.mem[q][i]) == ViewLeaf(s, s.mem[q][i])
    {
      EntryFacts(s, q, i);
    }
  }

  /** Where the current root maps a page readable and writable, accesses need no handler. */
  lemma WalkFindsPage(s: State, t: int, a: Address)
    requires Inv(s) && RoleAt(s, t) == Low(Handle(s), a.i2, a.i1) && Accessible(a)
    requires s.mem[t][a.i0].v && s.mem[t][a.i0].r && s.mem[t][a.i0].w
    ensures Mmu(s, a, s.root, 2, false) == Found(s, t) && Read(s, a) == Returned(s, Load(s, t, a))
    ensures forall v :: Write(s, a, v) == Returned(Store(s, t, a, v), v)
  {
    PathToLeafTable(s, t, Handle(s), a);
    MmuIsDescent(s, a);
    ViewOk(s);
    hide Inv, Mmu, Load, Store, LeafTable;
  }

  /** A page that is mapped readable and writable under the current root can be written and
      read back at every offset, whatever else the system holds. */
  lemma MappedPageIsUsable(s: State, t: nat, k: nat, p: nat, offset: nat, v: bv32)
    requires Inv(s) && Proper(s, DoMapPage(t, k, p, true, true)) && s.role[t].h == Handle(s)
    requires offset + 4 <= PAGE_SIZE
    ensures var s1, a := MapPage(s, t, k, p, true, true), Address(s.role[t].i, s.role[t].j, k, offset);
      && Accessible(a) && Write(s1, a, v).Returned?
      && Read(Write(s1, a, v).s, a) == Returned(Write(s1, a, v).s, v)
  {
    hide Inv, Read, Write, Store, MapPage, Load, Unmapped;
    var a := Address(s.role[t].i, s.role[t].j, k, offset);
    var s1 := MapPage(s, t, k, p, true, true);
    LeafTablePosition(s, t);
    PerformKeeps(s, DoMapPage(t, k, p, true, true));
    MapKeepsHandle(s, t, k, p);
    WriteThenRead(s1, t, a, v, p);
  }

  lemma WriteThenRead(s: State, t: nat, a: Address, v: bv32, p: nat)
    requires Inv(s) && RoleAt(s, t) == Low(Handle(s), a.i2, a.i1) && Accessible(a) && Frame(p) && p != t
    requires s.mem[t][a.i0].v && s.mem[t][a.i0].r && s.mem[t][a.i0].w && Target(s, s.mem[t][a.i0]) == p
    ensures Write(s, a, v).Returned? && Read(Write(s, a, v).s, a) == Returned(Write(s, a, v).s, v)
  {
    hide Inv, Read, Write, Store, Load;
    WalkFindsPage(s, t, a);
    WriteRefines(s, a, v);
    ReadAfterWrite(s, a, v);
    var s' := Store(s, t, a, v);
    StoreKeepsTables(s, t, a, v, p);
    WalkFindsPage(s', t, a);
  }

  lemma MapKeepsHandle(s: State, t: nat, k: nat, p: nat)
    requires Inv(s) && Proper(s, DoMapPage(t, k, p, true, true))
    ensures var s1 := MapPage(s, t, k, p, true, true);
      && Handle(s1) == Handle(s) && s1.role == s.role && s1.root == s.root && s1.base == s.base
      && s1.mem[t][k] == TableEntry(s, p).(r := true, w := true)
  {
  }

  lemma StoreKeepsTables(s: State, t: nat, a: Address, v: bv32, p: nat)
    requires Accessible(a) && Frame(t) && Frame(p) && p != t && Target(s, s.mem[t][a.i0]) == p
    ensures var s2 := Store(s, t, a, v);
      && Handle(s2) == Handle(s) && s2.role == s.role && s2.root == s.root && s2.mem[t] == s.mem[t]
  {
    hide WriteInt;
  }
}
