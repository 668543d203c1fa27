/** The private memory that a root table stands for, and when an update of the machine
    leaves it alone. */
module VmsSpace {
  import opened VmsAddress
  import opened VmsPte
  import opened VmsMachine
  import opened Wrappers

  /** One mapped page as a program sees it: its permissions and its contents. A page shared
      copy-on-write counts as writable. */
  datatype Mapping = Mapping(r: bool, w: bool, data: Page)

  type LowSpace = seq<Option<Mapping>>
  type MidSpace = seq<Option<LowSpace>>
  type Space = seq<Option<MidSpace>>

  function ViewLeaf(s: State, e: Pte): Option<Mapping> {
    if e.v then Some(Mapping(e.r, e.w || e.c, At(s, Target(s, e)))) else None
  }

  function LowView(s: State, p: int): (v: LowSpace)
    ensures |v| == NUM_PTE_ENTRIES
  {
    seq(NUM_PTE_ENTRIES, k requires 0 <= k < NUM_PTE_ENTRIES => ViewLeaf(s, At(s, p)[k]))
  }

  function ViewLow(s: State, e: Pte): Option<LowSpace> {
    if e.v then Some(LowView(s, Target(s, e))) else None
  }

  function MidView(s: State, p: int): (v: MidSpace)
    ensures |v| == NUM_PTE_ENTRIES
  {
    seq(NUM_PTE_ENTRIES, j requires 0 <= j < NUM_PTE_ENTRIES => ViewLow(s, At(s, p)[j]))
  }

  function ViewMid(s: State, e: Pte): Option<MidSpace> {
    if e.v then Some(MidView(s, Target(s, e))) else None
  }

  /** The whole private memory behind a root table. */
  function RootView(s: State, p: int): (v: Space)
    ensures |v| == NUM_PTE_ENTRIES
  {
    seq(NUM_PTE_ENTRIES, i requires 0 <= i < NUM_PTE_ENTRIES => ViewMid(s, At(s, p)[i]))
  }

  /** All private memories, by handle. */
  function Spaces(s: State): (v: seq<Space>)
    ensures |v| == |s.roots|
  {
    seq(|s.roots|, h requires 0 <= h < |s.roots| => RootView(s, s.roots[h]))
  }

  lemma LowViewAt(s: State, p: int, k: nat)
    requires k < NUM_PTE_ENTRIES
    ensures LowView(s, p)[k] == ViewLeaf(s, At(s, p)[k])
  {
  }

  lemma MidViewAt(s: State, p: int, j: nat)
    requires j < NUM_PTE_ENTRIES
    ensures MidView(s, p)[j] == ViewLow(s, At(s, p)[j])
  {
  }

  lemma RootViewAt(s: State, p: int, i: nat)
    requires i < NUM_PTE_ENTRIES
    ensures RootView(s, p)[i] == ViewMid(s, At(s, p)[i])
  {
  }

  // ---- Updates that no program can see ------------------------------------------------

  /** An entry that is the same, or whose write bit has been traded for the custom bit: it
      shows the same page with the same effective permissions. */
  predicate SameView(e: Pte, e': Pte) {
    e' == e || (e.v && (e.w || e.c) && e' == e.(w := false, c := true))
  }

  /** Every frame in use keeps its role and what it shows; `x` alone may be rewritten. */
  ghost predicate Grows(s: State, s': State, x: int) {
    && s'.base == s.base
    && (forall p :: 0 <= p < MAX_PAGES && s.inUse[p] ==> s'.inUse[p] && s'.role[p] == s.role[p])
    && (forall p :: 0 <= p < MAX_PAGES && s.inUse[p] && !s.role[p].Low? && p != x ==> s'.mem[p] == s.mem[p])
    && (forall p, k :: 0 <= p < MAX_PAGES && s.inUse[p] && s.role[p].Low? && p != x && 0 <= k < NUM_PTE_ENTRIES ==>
          SameView(s.mem[p][k], s'.mem[p][k]))
  }

  /** What growth says about one frame. */
  lemma GrowsAt(s: State, s': State, x: int, p: int)
    requires Grows(s, s', x) && Frame(p) && s.inUse[p]
    ensures s'.base == s.base && s'.inUse[p] && s'.role[p] == s.role[p]
    ensures !s.role[p].Low? && p != x ==> s'.mem[p] == s.mem[p]
  {
  }

  lemma GrowsReflexive(s: State, x: int)
    ensures Grows(s, s, x)
  {
  }

  lemma GrowsTransitive(s: State, s1: State, s2: State, x: int)
    requires Grows(s, s1, x) && Grows(s1, s2, x)
    ensures Grows(s, s2, x)
  {
    forall p, k | 0 <= p < MAX_PAGES && s.inUse[p] && s.role[p].Low? && p != x && 0 <= k < NUM_PTE_ENTRIES
      ensures SameView(s.mem[p][k], s2.mem[p][k])
    {
      assert SameView(s.mem[p][k], s1.mem[p][k]) && SameView(s1.mem[p][k], s2.mem[p][k]);
    }
  }

  /** The part of the invariant that the views depend on. */
  ghost predicate Tree(s: State) { FreeFramesBlank(s) && TablesOk(s) }

  lemma RoleMeansUse(s: State, p: int)
    requires Tree(s) && !RoleAt(s, p).Unused?
    ensures Frame(p) && s.inUse[p]
  {
  }

  lemma BlankFrame(s: State, p: int)
    requires Tree(s) && Frame(p) && !s.inUse[p]
    ensures s.mem[p] == ZeroPage()
  {
  }

  lemma EntryFacts(s: State, p: int, k: nat)
    requires Tree(s) && IsTable(RoleAt(s, p)) && k < NUM_PTE_ENTRIES
    ensures Frame(p) && s.inUse[p] && EntryOk(s, s.role[p], k, s.mem[p][k])
    ensures s.mem[p][k].v ==> s.inUse[Target(s, s.mem[p][k])]
  {
    assert EntryOk(s, s.role[p], k, s.mem[p][k]);
  }

  lemma LowViewKept(s: State, s': State, p: int, x: int)
    requires Tree(s) && Grows(s, s', x) && RoleAt(s, p).Low? && p != x && !RoleAt(s, x).Data?
    ensures LowView(s', p) == LowView(s, p)
  {
    forall k | 0 <= k < NUM_PTE_ENTRIES ensures ViewLeaf(s', At(s', p)[k]) == ViewLeaf(s, At(s, p)[k]) {
      assert EntryOk(s, s.role[p], k, s.mem[p][k]);
      assert SameView(s.mem[p][k], s'.mem[p][k]);
    }
  }

  lemma MidViewKept(s: State, s': State, p: int, x: int)
    requires Tree(s) && Grows(s, s', x) && RoleAt(s, p).Mid? && p != x
    requires RoleAt(s, x).Root? || RoleAt(s, x).Mid? || RoleAt(s, x).Unused?
    ensures MidView(s', p) == MidView(s, p)
  {
    forall j | 0 <= j < NUM_PTE_ENTRIES ensures ViewLow(s', At(s', p)[j]) == ViewLow(s, At(s, p)[j]) {
      assert EntryOk(s, s.role[p], j, s.mem[p][j]);
      if s.mem[p][j].v { LowViewKept(s, s', Target(s, s.mem[p][j]), x); }
    }
  }

  lemma RootViewKept(s: State, s': State, p: int, x: int)
    requires Tree(s) && Grows(s, s', x) && RoleAt(s, p).Root? && p != x
    requires RoleAt(s, x).Root? || RoleAt(s, x).Unused?
    ensures RootView(s', p) == RootView(s, p)
  {
    forall i | 0 <= i < NUM_PTE_ENTRIES ensures ViewMid(s', At(s', p)[i]) == ViewMid(s, At(s, p)[i]) {
      assert EntryOk(s, s.role[p], i, s.mem[p][i]);
      if s.mem[p][i].v { MidViewKept(s, s', Target(s, s.mem[p][i]), x); }
    }
  }

  // ---- One address of a space ---------------------------------------------------------

  /** The tables on the way to an address are there. */
  predicate HasPath(space: Space, a: Address) {
    && a.i2 < |space| && space[a.i2].Some?
    && a.i1 < |space[a.i2].value| && space[a.i2].value[a.i1].Some?
    && a.i0 < |space[a.i2].value[a.i1].value|
  }

  function Lookup(space: Space, a: Address): Option<Mapping> {
    if HasPath(space, a) then space[a.i2].value[a.i1].value[a.i0] else None
  }

  /** The space with another page at an address. */
  function SetMapping(space: Space, a: Address, m: Option<Mapping>): Space
    requires HasPath(space, a)
  {
    space[a.i2 := Some(space[a.i2].value[a.i1 := Some(space[a.i2].value[a.i1].value[a.i0 := m])])]
  }

  /** A mapping is changed at one page and nowhere else. */
  lemma LookupSetMapping(space: Space, a: Address, m: Option<Mapping>, b: Address)
    requires HasPath(space, a)
    ensures Lookup(SetMapping(space, a, m), b)
         == if b.i2 == a.i2 && b.i1 == a.i1 && b.i0 == a.i0 then m else Lookup(space, b)
  {
  }

  /** The leaf table that a plain descent through the tables reaches. */
  function LeafTable(s: State, root: int, a: Address): Option<int>
    requires a.Ok()
  {
    var e2 := At(s, root)[a.i2];
    if !e2.v then None else
    var e1 := At(s, Target(s, e2))[a.i1];
    if !e1.v then None else Some(Target(s, e1))
  }

  lemma LookupIsDescent(s: State, root: int, a: Address)
    requires a.Ok()
    ensures HasPath(RootView(s, root), a) <==> LeafTable(s, root, a).Some?
    ensures Lookup(RootView(s, root), a)
         == match LeafTable(s, root, a) case None => None case Some(p) => ViewLeaf(s, At(s, p)[a.i0])
  {
    RootViewAt(s, root, a.i2);
    var e2 := At(s, root)[a.i2];
    if e2.v {
      var mid := Target(s, e2);
      MidViewAt(s, mid, a.i1);
      if At(s, mid)[a.i1].v { LowViewAt(s, Target(s, At(s, mid)[a.i1]), a.i0); }
    }
  }

  /** Every leaf entry but entry `k0` of table `p0` shows what it showed before. */
  ghost predicate ChangesLeaf(s: State, s': State, p0: int, k0: int) {
    && s'.base == s.base && s'.roots == s.roots
    && (forall p :: 0 <= p < MAX_PAGES && (s.role[p].Root? || s.role[p].Mid?) ==> s'.mem[p] == s.mem[p])
    && (forall p, k :: 0 <= p < MAX_PAGES && s.role[p].Low? && 0 <= k < NUM_PTE_ENTRIES && (p, k) != (p0, k0) ==>
          ViewLeaf(s', s'.mem[p][k]) == ViewLeaf(s, s.mem[p][k]))
  }

  lemma OtherLowView(s: State, s': State, p0: int, k0: int, p: int)
    requires ChangesLeaf(s, s', p0, k0) && RoleAt(s, p).Low? && p != p0
    ensures LowView(s', p) == LowView(s, p)
  {
  }

  lemma ChangedLowView(s: State, s': State, p0: int, k0: nat)
    requires ChangesLeaf(s, s', p0, k0) && RoleAt(s, p0).Low? && k0 < NUM_PTE_ENTRIES
    ensures LowView(s', p0) == LowView(s, p0)[k0 := ViewLeaf(s', s'.mem[p0][k0])]
  {
  }

  lemma OtherMidView(s: State, s': State, p0: int, k0: int, p: int)
    requires Tree(s) && ChangesLeaf(s, s', p0, k0) && RoleAt(s, p).Mid? && RoleAt(s, p0).Low?
    requires s.role[p0].h != s.role[p].h || s.role[p0].i != s.role[p].i
    ensures MidView(s', p) == MidView(s, p)
  {
    forall j | 0 <= j < NUM_PTE_ENTRIES ensures ViewLow(s', At(s', p)[j]) == ViewLow(s, At(s, p)[j]) {
      EntryFacts(s, p, j);
      if s.mem[p][j].v { OtherLowView(s, s', p0, k0, Target(s, s.mem[p][j])); }
    }
  }

  lemma ChangedMidView(s: State, s': State, p0: int, k0: nat, p: int, j0: nat)
    requires Tree(s) && ChangesLeaf(s, s', p0, k0) && RoleAt(s, p).Mid? && RoleAt(s, p0).Low?
    requires k0 < NUM_PTE_ENTRIES && j0 < NUM_PTE_ENTRIES && s.mem[p][j0].v && Target(s, s.mem[p][j0]) == p0
    ensures MidView(s', p) == MidView(s, p)[j0 := Some(LowView(s, p0)[k0 := ViewLeaf(s', s'.mem[p0][k0])])]
  {
    EntryFacts(s, p, j0);
    ChangedLowView(s, s', p0, k0);
    forall j | 0 <= j < NUM_PTE_ENTRIES && j != j0 ensures ViewLow(s', At(s', p)[j]) == ViewLow(s, At(s, p)[j]) {
      EntryFacts(s, p, j);
      if s.mem[p][j].v { OtherLowView(s, s', p0, k0, Target(s, s.mem[p][j])); }
    }
  }

  lemma OtherRootView(s: State, s': State, p0: int, k0: int, p: int)
    requires Tree(s) && ChangesLeaf(s, s', p0, k0) && RoleAt(s, p).Root? && RoleAt(s, p0).Low?
    requires s.role[p0].h != s.role[p].h
    ensures RootView(s', p) == RootView(s, p)
  {
    forall i | 0 <= i < NUM_PTE_ENTRIES ensures ViewMid(s', At(s', p)[i]) == ViewMid(s, At(s, p)[i]) {
      EntryFacts(s, p, i);
      if s.mem[p][i].v { OtherMidView(s, s', p0, k0, Target(s, s.mem[p][i])); }
    }
  }

  lemma ChangedRootView(s: State, s': State, p: int, a: Address)
    requires Tree(s) && RoleAt(s, p).Root? && a.Ok() && LeafTable(s, p, a).Some?
    requires ChangesLeaf(s, s', LeafTable(s, p, a).value, a.i0)
    ensures RoleAt(s, LeafTable(s, p, a).value).Low?
    ensures HasPath(RootView(s, p), a)
    ensures RootView(s', p) == SetMapping(RootView(s, p), a, ViewLeaf(s', At(s', LeafTable(s, p, a).value)[a.i0]))
  {
    LookupIsDescent(s, p, a);
    EntryFacts(s, p, a.i2);
    var m := Target(s, s.mem[p][a.i2]);
    EntryFacts(s, m, a.i1);
    var p0 := Target(s, s.mem[m][a.i1]);
    ChangedMidView(s, s', p0, a.i0, m, a.i1);
    RootViewAt(s, p, a.i2);
    MidViewAt(s, m, a.i1);
    forall i | 0 <= i < NUM_PTE_ENTRIES && i != a.i2 ensures ViewMid(s', At(s', p)[i]) == ViewMid(s, At(s, p)[i]) {
      EntryFacts(s, p, i);
      if s.mem[p][i].v { OtherMidView(s, s', p0, a.i0, Target(s, s.mem[p][i])); }
    }
  }

  /** A change behind one leaf entry of the current root changes one page of one space. */
  lemma SpacesAfterChange(s: State, s': State, h: nat, a: Address)
    requires Tree(s) && RootsOk(s) && h < |s.roots| && a.Ok()
    requires LeafTable(s, s.roots[h], a).Some? && ChangesLeaf(s, s', LeafTable(s, s.roots[h], a).value, a.i0)
    ensures HasPath(Spaces(s)[h], a)
    ensures Spaces(s') == Spaces(s)[h := SetMapping(Spaces(s)[h], a,
                                        ViewLeaf(s', At(s', LeafTable(s, s.roots[h], a).value)[a.i0]))]
  {
    var p0 := LeafTable(s, s.roots[h], a).value;
    ChangedRootView(s, s', s.roots[h], a);
    LeafTableRole(s, s.roots[h], a);
    forall g | 0 <= g < |s.roots| && g != h ensures RootView(s', s.roots[g]) == RootView(s, s.roots[g]) {
      OtherRootView(s, s', p0, a.i0, s.roots[g]);
    }
  }

  /** The role of a leaf table is its position. */
  lemma LeafTableRole(s: State, root: int, a: Address)
    requires Tree(s) && RoleAt(s, root).Root? && a.Ok() && LeafTable(s, root, a).Some?
    ensures RoleAt(s, LeafTable(s, root, a).value) == Low(s.role[root].h, a.i2, a.i1)
  {
    EntryFacts(s, root, a.i2);
    EntryFacts(s, Target(s, s.mem[root][a.i2]), a.i1);
  }
}
