/** Forking an address space: the triple loop of `copy`, as three nested prefix recursions.
    Each function gives the machine after the first `n` iterations of its loop. */
module VmsFork {
  import opened VmsPte
  import opened VmsMachine
  import opened VmsSteps
  import opened VmsSpace
  import opened Wrappers

  datatype Mode = Eager | Cow

  /** One iteration of the innermost loop: entry `k` of leaf table `lo` into leaf table `lf`. */
  function CopyLeaf(s: State, lo: int, lf: int, k: nat, mode: Mode): Option<State>
    requires k < NUM_PTE_ENTRIES
  {
    var e := At(s, lo)[k];
    if !e.v then Some(s)
    else if mode == Eager then
      match FirstFree(s.inUse, 0)
      case None => None
      case Some(n) => Some(CopyPage(s, e, lf, k, n))
    else if !e.w && !e.c then Some(Put(s, lf, k, e))
    else Some(Share(s, lo, k, lf, k))
  }

  /** A private copy, in frame `n`, of the page behind `e`. */
  function CopyPage(s: State, e: Pte, lf: int, k: nat, n: nat): State
    requires k < NUM_PTE_ENTRIES && Frame(n)
  {
    var s1 := TakeData(s, n, At(s, Target(s, e)));
    Put(s1, lf, k, Redirect(s1, e, n))
  }

  function CopyLow(s: State, lo: int, lf: int, n: nat, mode: Mode): Option<State>
    requires n <= NUM_PTE_ENTRIES
  {
    if n == 0 then Some(s) else
    match CopyLow(s, lo, lf, n - 1, mode)
    case None => None
    case Some(s1) => CopyLeaf(s1, lo, lf, n - 1, mode)
  }

  /** One iteration of the middle loop: entry `j` of table `mo` into table `mf`, which has
      position `i` in the new tree `h`. */
  function CopyMidEntry(s: State, mo: int, mf: int, h: nat, i: nat, j: nat, mode: Mode): Option<State>
    requires j < NUM_PTE_ENTRIES
  {
    var e := At(s, mo)[j];
    if !e.v then Some(s) else
    match Alloc(s, Low(h, i, j))
    case None => None
    case Some((s1, lf)) =>
      match CopyLow(s1, Target(s, e), lf, NUM_PTE_ENTRIES, mode)
      case None => None
      case Some(s2) => Some(Put(s2, mf, j, Redirect(s2, At(s2, mo)[j], lf)))
  }

  function CopyMid(s: State, mo: int, mf: int, h: nat, i: nat, n: nat, mode: Mode): Option<State>
    requires n <= NUM_PTE_ENTRIES
  {
    if n == 0 then Some(s) else
    match CopyMid(s, mo, mf, h, i, n - 1, mode)
    case None => None
    case Some(s1) => CopyMidEntry(s1, mo, mf, h, i, n - 1, mode)
  }

  /** One iteration of the outer loop: entry `i` of root `ro` into root `rf` of tree `h`. */
  function CopyRootEntry(s: State, ro: int, rf: int, h: nat, i: nat, mode: Mode): Option<State>
    requires i < NUM_PTE_ENTRIES
  {
    var e := At(s, ro)[i];
    if !e.v then Some(s) else
    match Alloc(s, Mid(h, i))
    case None => None
    case Some((s1, mf)) =>
      match CopyMid(s1, Target(s, e), mf, h, i, NUM_PTE_ENTRIES, mode)
      case None => None
      case Some(s2) => Some(Put(s2, rf, i, Redirect(s2, At(s2, ro)[i], mf)))
  }

  function CopyRoot(s: State, ro: int, rf: int, h: nat, n: nat, mode: Mode): Option<State>
    requires n <= NUM_PTE_ENTRIES
  {
    if n == 0 then Some(s) else
    match CopyRoot(s, ro, rf, h, n - 1, mode)
    case None => None
    case Some(s1) => CopyRootEntry(s1, ro, rf, h, n - 1, mode)
  }

  /** vms_fork_copy and vms_fork_copy_on_write; the new root is the last of `roots`. */
  function Fork(s: State, mode: Mode): Option<State> {
    match FirstFree(s.inUse, 0)
    case None => None
    case Some(rf) => CopyRoot(TakeRoot(s, rf), s.root, rf, |s.roots|, NUM_PTE_ENTRIES, mode)
  }

  // ---- The innermost loop -------------------------------------------------------------

  /** The situation of the innermost loop: `lf` is being filled from `lo`. */
  ghost predicate LowSetting(s: State, lo: int, lf: int, open: set<int>) {
    && Building(s, open)
    && Frame(lo) && s.role[lo].Low? && Frame(lf) && s.role[lf].Low? && lo != lf
  }

  ghost predicate BlankFrom(s: State, p: int, n: nat) {
    forall k :: n <= k < NUM_PTE_ENTRIES ==> At(s, p)[k] == ZERO_PTE
  }

  /** What one iteration of the innermost loop achieves. */
  ghost predicate LeafCopied(s: State, s': State, lo: int, lf: int, k: nat)
    requires k < NUM_PTE_ENTRIES
  {
    && Grows(s, s', lf) && s'.roots == s.roots && s'.root == s.root
    && (forall k' :: 0 <= k' < NUM_PTE_ENTRIES && k' != k ==> At(s', lf)[k'] == At(s, lf)[k'])
    && ViewLeaf(s', At(s', lf)[k]) == ViewLeaf(s, At(s, lo)[k])
  }

  lemma CopyLeafWorks(s: State, lo: int, lf: int, k: nat, mode: Mode, open: set<int>)
    requires LowSetting(s, lo, lf, open) && k < NUM_PTE_ENTRIES && At(s, lf)[k] == ZERO_PTE
    requires CopyLeaf(s, lo, lf, k, mode).Some?
    ensures var s' := CopyLeaf(s, lo, lf, k, mode).value;
      LowSetting(s', lo, lf, open) && LeafCopied(s, s', lo, lf, k)
  {
    hide LeafCopied, Building, Tree;
    BuildingTree(s, open);
    LeafCopiedByKind(s, lo, lf, k, mode);
    var e := s.mem[lo][k];
    if e.v {
      if mode == Eager {
        CopyPageKeeps(s, lo, lf, k, FirstFree(s.inUse, 0).value, open);
      } else if !e.w && !e.c {
        PutReadOnly(s, lf, k, lo, k, open);
      } else {
        ShareKeeps(s, lo, k, lf, k, open);
      }
    }
  }

  lemma LeafCopiedByKind(s: State, lo: int, lf: int, k: nat, mode: Mode)
    requires Tree(s) && Frame(lo) && s.role[lo].Low? && Frame(lf) && s.role[lf].Low? && lo != lf
    requires k < NUM_PTE_ENTRIES && At(s, lf)[k] == ZERO_PTE
    requires CopyLeaf(s, lo, lf, k, mode).Some?
    ensures LeafCopied(s, CopyLeaf(s, lo, lf, k, mode).value, lo, lf, k)
  {
    var e := s.mem[lo][k];
    if e.v {
      if mode == Eager {
        LeafCopiedEagerly(s, lo, lf, k, FirstFree(s.inUse, 0).value);
      } else if !e.w && !e.c {
        assert EntryOk(s, s.role[lo], k, e);
      } else {
        LeafShared(s, lo, lf, k);
      }
    }
  }

  lemma LeafCopiedEagerly(s: State, lo: int, lf: int, k: nat, n: nat)
    requires Tree(s) && Frame(lo) && s.role[lo].Low? && Frame(lf) && s.role[lf].Low? && lo != lf
    requires k < NUM_PTE_ENTRIES && s.mem[lo][k].v && Fresh(s, n)
    ensures LeafCopied(s, CopyPage(s, s.mem[lo][k], lf, k, n), lo, lf, k)
  {
    var e := s.mem[lo][k];
    assert EntryOk(s, s.role[lo], k, e);
    var s' := CopyPage(s, e, lf, k, n);
    assert forall p :: 0 <= p < MAX_PAGES && p != n && p != lf ==> s'.mem[p] == s.mem[p];
    assert At(s', n) == At(s, Target(s, e));
  }

  lemma LeafShared(s: State, lo: int, lf: int, k: nat)
    requires Tree(s) && Frame(lo) && s.role[lo].Low? && Frame(lf) && s.role[lf].Low? && lo != lf
    requires k < NUM_PTE_ENTRIES && s.mem[lo][k].v && (s.mem[lo][k].w || s.mem[lo][k].c)
    ensures LeafCopied(s, Share(s, lo, k, lf, k), lo, lf, k)
  {
    var e := s.mem[lo][k];
    assert EntryOk(s, s.role[lo], k, e);
    var s' := Share(s, lo, k, lf, k);
    assert forall p :: 0 <= p < MAX_PAGES && p != lo && p != lf ==> s'.mem[p] == s.mem[p];
    assert s'.mem[lo] == s.mem[lo][k := Lazy(e)];
  }

  lemma CopyPageKeeps(s: State, lo: int, lf: int, k: nat, n: nat, open: set<int>)
    requires LowSetting(s, lo, lf, open) && k < NUM_PTE_ENTRIES && At(s, lf)[k] == ZERO_PTE
    requires Fresh(s, n) && Leaf(s, lo, k)
    ensures LowSetting(CopyPage(s, s.mem[lo][k], lf, k, n), lo, lf, open)
  {
    var e := s.mem[lo][k];
    assert EntryOk(s, s.role[lo], k, e);
    var data := At(s, Target(s, e));
    TakeDataKeeps(s, n, data, open);
    TakenIsUnmapped(s, n, data);
    var s1 := TakeData(s, n, data);
    PutPrivate(s1, lf, k, Redirect(s1, e, n), open);
  }

  /** The first `n` iterations of the innermost loop. */
  ghost predicate LowCopied(s: State, s': State, lo: int, lf: int, n: nat) {
    && Grows(s, s', lf) && s'.roots == s.roots && s'.root == s.root
    && BlankFrom(s', lf, n)
    && (forall k :: 0 <= k < n && k < NUM_PTE_ENTRIES ==> ViewLeaf(s', At(s', lf)[k]) == ViewLeaf(s, At(s, lo)[k]))
  }

  lemma {:induction false} CopyLowWorks(s: State, lo: int, lf: int, n: nat, mode: Mode, open: set<int>)
    requires LowSetting(s, lo, lf, open) && n <= NUM_PTE_ENTRIES && BlankFrom(s, lf, 0)
    requires CopyLow(s, lo, lf, n, mode).Some?
    ensures var s' := CopyLow(s, lo, lf, n, mode).value;
      LowSetting(s', lo, lf, open) && LowCopied(s, s', lo, lf, n)
  {
    hide Building, Grows, LowSetting, ViewLeaf, Tree, CopyLeaf;
    if n == 0 {
      GrowsReflexive(s, lf);
    } else {
      CopyLowWorks(s, lo, lf, n - 1, mode, open);
      var s1 := CopyLow(s, lo, lf, n - 1, mode).value;
      LowSettingTree(s, lo, lf, open);
      LowSettingTree(s1, lo, lf, open);
      CopyLeafWorks(s1, lo, lf, n - 1, mode, open);
      var s2 := CopyLeaf(s1, lo, lf, n - 1, mode).value;
      LowCopiedStep(s, s1, s2, lo, lf, n);
    }
  }

  lemma LowSettingTree(s: State, lo: int, lf: int, open: set<int>)
    requires LowSetting(s, lo, lf, open)
    ensures Tree(s) && RoleAt(s, lo).Low? && RoleAt(s, lf).Low? && lo != lf
  {
  }

  lemma LowCopiedStep(s: State, s1: State, s2: State, lo: int, lf: int, n: nat)
    requires Tree(s) && RoleAt(s, lo).Low? && RoleAt(s, lf).Low? && lo != lf
    requires Tree(s1) && RoleAt(s1, lo).Low? && RoleAt(s1, lf).Low? && 0 < n <= NUM_PTE_ENTRIES
    requires LowCopied(s, s1, lo, lf, n - 1) && LeafCopied(s1, s2, lo, lf, n - 1)
    ensures LowCopied(s, s2, lo, lf, n)
  {
    hide Tree, Grows, ViewLeaf;
    GrowsTransitive(s, s1, s2, lf);
    forall k | 0 <= k < n ensures ViewLeaf(s2, At(s2, lf)[k]) == ViewLeaf(s, At(s, lo)[k]) {
      if k < n - 1 {
        EntryViewKept(s1, s2, lf, k, lf);
      } else {
        EntryViewKept(s, s1, lo, k, lf);
      }
    }
  }

  /** A leaf entry shows the same page as long as it is not rewritten. */
  lemma EntryViewKept(s: State, s': State, p: int, k: nat, x: int)
    requires Tree(s) && Grows(s, s', x) && RoleAt(s, p).Low? && k < NUM_PTE_ENTRIES && !RoleAt(s, x).Data?
    requires p == x ==> At(s', p)[k] == At(s, p)[k]
    ensures ViewLeaf(s', At(s', p)[k]) == ViewLeaf(s, At(s, p)[k])
  {
    assert EntryOk(s, s.role[p], k, s.mem[p][k]);
    if p != x { assert SameView(s.mem[p][k], s'.mem[p][k]); }
  }

  // ---- The middle loop ----------------------------------------------------------------

  ghost predicate MidSetting(s: State, mo: int, mf: int, h: nat, i: nat, open: set<int>) {
    && Building(s, open)
    && Frame(mo) && s.role[mo].Mid? && Frame(mf) && s.role[mf] == Mid(h, i) && mo != mf
  }

  ghost predicate LowTreeCopied(s: State, s': State, mo: int, mf: int, j: nat)
    requires j < NUM_PTE_ENTRIES
  {
    && Grows(s, s', mf) && s'.roots == s.roots && s'.root == s.root
    && (forall j' :: 0 <= j' < NUM_PTE_ENTRIES && j' != j ==> At(s', mf)[j'] == At(s, mf)[j'])
    && ViewLow(s', At(s', mf)[j]) == ViewLow(s, At(s, mo)[j])
  }

  /** A frame that was free at the start may be rewritten. */
  lemma GrowsPastFresh(s: State, s1: State, s2: State, x: int, blank: int)
    requires Grows(s, s1, x) && Fresh(s, blank) && Grows(s1, s2, blank)
    ensures Grows(s, s2, x)
  {
    forall p, k | 0 <= p < MAX_PAGES && s.inUse[p] && s.role[p].Low? && p != x && 0 <= k < NUM_PTE_ENTRIES
      ensures SameView(s.mem[p][k], s2.mem[p][k])
    {
      assert SameView(s.mem[p][k], s1.mem[p][k]) && SameView(s1.mem[p][k], s2.mem[p][k]);
    }
  }

  lemma FullLowCopy(s: State, s': State, lo: int, lf: int)
    requires LowCopied(s, s', lo, lf, NUM_PTE_ENTRIES)
    ensures LowView(s', lf) == LowView(s, lo)
  {
  }

  /** Entry `e` of a table, redirected to a freshly filled table of the same kind, is linked. */
  lemma LinkChild(s: State, t: int, k: nat, e: Pte, r: Role, child: int, open: set<int>)
    requires Building(s, open + {child}) && Frame(t) && (s.role[t].Root? || s.role[t].Mid?) && k < NUM_PTE_ENTRIES
    requires !s.mem[t][k].v && IsTable(r) && !r.Low? && EntryOk(s, r, k, e) && e.v
    requires Frame(child) && s.role[child] == ChildRole(s.role[t], k)
    ensures Building(Put(s, t, k, Redirect(s, e, child)), open)
  {
    var e' := Redirect(s, e, child);
    LinkKeeps(s, t, k, e', open + {child}, child);
  }

  lemma LinkGrows(s: State, t: int, k: nat, e: Pte)
    requires Frame(t) && k < NUM_PTE_ENTRIES
    ensures Grows(s, Put(s, t, k, e), t)
  {
  }

  lemma TakeGrows(s: State, p: int, role: Role, x: int)
    requires Fresh(s, p)
    ensures Grows(s, Take(s, p, role), x)
  {
  }

  lemma BlankShows(s: State, p: int, p': int, k: nat)
    requires k < NUM_PTE_ENTRIES && !At(s, p)[k].v && At(s, p')[k] == ZERO_PTE
    ensures ViewLow(s, At(s, p')[k]) == ViewLow(s, At(s, p)[k]) && ViewMid(s, At(s, p')[k]) == ViewMid(s, At(s, p)[k])
  {
  }

  lemma CopyMidEntryWorks(s: State, mo: int, mf: int, h: nat, i: nat, j: nat, mode: Mode, open: set<int>)
    requires MidSetting(s, mo, mf, h, i, open) && j < NUM_PTE_ENTRIES && At(s, mf)[j] == ZERO_PTE
    requires CopyMidEntry(s, mo, mf, h, i, j, mode).Some?
    ensures var s' := CopyMidEntry(s, mo, mf, h, i, j, mode).value;
      MidSetting(s', mo, mf, h, i, open) && LowTreeCopied(s, s', mo, mf, j)
  {
    hide Building, Grows, CopyLow, ViewLow;
    if s.mem[mo][j].v {
      var lf := FirstFree(s.inUse, 0).value;
      LowTreeLinked(s, mo, mf, h, i, j, mode, lf, open);
    } else {
      GrowsReflexive(s, mf);
      BlankShows(s, mo, mf, j);
    }
  }

  lemma LowTreeLinked(s: State, mo: int, mf: int, h: nat, i: nat, j: nat, mode: Mode, lf: nat, open: set<int>)
    requires MidSetting(s, mo, mf, h, i, open) && j < NUM_PTE_ENTRIES && At(s, mf)[j] == ZERO_PTE
    requires s.mem[mo][j].v && Fresh(s, lf)
    requires CopyLow(Take(s, lf, Low(h, i, j)), Target(s, s.mem[mo][j]), lf, NUM_PTE_ENTRIES, mode).Some?
    ensures var s2 := CopyLow(Take(s, lf, Low(h, i, j)), Target(s, s.mem[mo][j]), lf, NUM_PTE_ENTRIES, mode).value;
      var s' := Put(s2, mf, j, Redirect(s2, At(s2, mo)[j], lf));
      MidSetting(s', mo, mf, h, i, open) && LowTreeCopied(s, s', mo, mf, j)
  {
    hide Building, Tree, Grows, LowTreeCopied, CopyLow;
    BuildingTree(s, open);
    EntryFacts(s, mo, j);
    EntryFacts(s, mf, j);
    BlankFrame(s, lf);
    var e := s.mem[mo][j];
    var s1 := Take(s, lf, Low(h, i, j));
    var lo := Target(s, e);
    TakeKeeps(s, lf, Low(h, i, j), open);
    CopyLowWorks(s1, lo, lf, NUM_PTE_ENTRIES, mode, open + {lf});
    var s2 := CopyLow(s1, lo, lf, NUM_PTE_ENTRIES, mode).value;
    TakeGrows(s, lf, Low(h, i, j), mf);
    GrowsPastFresh(s, s1, s2, mf, lf);
    GrowsAt(s1, s2, lf, mf);
    GrowsAt(s1, s2, lf, mo);
    GrowsAt(s1, s2, lf, lo);
    GrowsAt(s1, s2, lf, lf);
    LinkChild(s2, mf, j, e, s.role[mo], lf, open);
    BuildingTree(s1, open + {lf});
    BuildingTree(s2, open + {lf});
    LowTreeView(s, s1, s2, mo, mf, lf, j);
  }

  lemma BuildingTree(s: State, open: set<int>)
    requires Building(s, open)
    ensures Tree(s)
  {
  }

  lemma LowTreeView(s: State, s1: State, s2: State, mo: int, mf: int, lf: int, j: nat)
    requires Tree(s) && Tree(s1) && Tree(s2) && j < NUM_PTE_ENTRIES && mo != mf
    requires RoleAt(s, mo).Mid? && s.mem[mo][j].v && RoleAt(s, mf).Mid? && Fresh(s, lf)
    requires s1 == Take(s, lf, Low(s.role[mf].h, s.role[mf].i, j))
    requires Grows(s, s2, mf) && Grows(s1, s2, lf) && s2.roots == s1.roots && s2.root == s1.root
    requires LowCopied(s1, s2, Target(s, s.mem[mo][j]), lf, NUM_PTE_ENTRIES)
    ensures LowTreeCopied(s, Put(s2, mf, j, Redirect(s2, s2.mem[mo][j], lf)), mo, mf, j)
  {
    hide Tree, Grows, LowCopied, ViewLeaf, LowView;
    EntryFacts(s, mo, j);
    EntryFacts(s, mf, j);
    var lo := Target(s, s.mem[mo][j]);
    var e' := Redirect(s2, s2.mem[mo][j], lf);
    var s' := Put(s2, mf, j, e');
    TakeGrows(s, lf, Low(s.role[mf].h, s.role[mf].i, j), mf);
    LinkGrows(s2, mf, j, e');
    GrowsTransitive(s, s2, s', mf);
    GrowsAt(s1, s2, lf, mf);
    GrowsAt(s1, s2, lf, mo);
    GrowsAt(s1, s2, lf, lf);
    FullLowCopy(s1, s2, lo, lf);
    LowViewKept(s, s1, lo, mf);
    LowViewKept(s2, s', lf, mf);
  }

  ghost predicate MidCopied(s: State, s': State, mo: int, mf: int, n: nat) {
    && Grows(s, s', mf) && s'.roots == s.roots && s'.root == s.root
    && BlankFrom(s', mf, n)
    && (forall j :: 0 <= j < n && j < NUM_PTE_ENTRIES ==> ViewLow(s', At(s', mf)[j]) == ViewLow(s, At(s, mo)[j]))
  }

  lemma {:induction false} CopyMidWorks(s: State, mo: int, mf: int, h: nat, i: nat, n: nat, mode: Mode, open: set<int>)
    requires MidSetting(s, mo, mf, h, i, open) && n <= NUM_PTE_ENTRIES && BlankFrom(s, mf, 0)
    requires CopyMid(s, mo, mf, h, i, n, mode).Some?
    ensures var s' := CopyMid(s, mo, mf, h, i, n, mode).value;
      MidSetting(s', mo, mf, h, i, open) && MidCopied(s, s', mo, mf, n)
  {
    hide Building, Grows, MidSetting, ViewLow, Tree, CopyMidEntry;
    if n == 0 {
      GrowsReflexive(s, mf);
    } else {
      CopyMidWorks(s, mo, mf, h, i, n - 1, mode, open);
      var s1 := CopyMid(s, mo, mf, h, i, n - 1, mode).value;
      MidSettingTree(s, mo, mf, h, i, open);
      MidSettingTree(s1, mo, mf, h, i, open);
      CopyMidEntryWorks(s1, mo, mf, h, i, n - 1, mode, open);
      var s2 := CopyMidEntry(s1, mo, mf, h, i, n - 1, mode).value;
      MidCopiedStep(s, s1, s2, mo, mf, n);
    }
  }

  lemma MidSettingTree(s: State, mo: int, mf: int, h: nat, i: nat, open: set<int>)
    requires MidSetting(s, mo, mf, h, i, open)
    ensures Tree(s) && RoleAt(s, mo).Mid? && RoleAt(s, mf).Mid? && mo != mf
  {
  }

  lemma MidCopiedStep(s: State, s1: State, s2: State, mo: int, mf: int, n: nat)
    requires Tree(s) && RoleAt(s, mo).Mid? && RoleAt(s, mf).Mid? && mo != mf
    requires Tree(s1) && RoleAt(s1, mo).Mid? && RoleAt(s1, mf).Mid? && 0 < n <= NUM_PTE_ENTRIES
    requires MidCopied(s, s1, mo, mf, n - 1) && LowTreeCopied(s1, s2, mo, mf, n - 1)
    ensures MidCopied(s, s2, mo, mf, n)
  {
    hide Tree, Grows, ViewLow;
    GrowsTransitive(s, s1, s2, mf);
    forall j | 0 <= j < n ensures ViewLow(s2, At(s2, mf)[j]) == ViewLow(s, At(s, mo)[j]) {
      if j < n - 1 {
        LowEntryViewKept(s1, s2, mf, j, mf);
      } else {
        LowEntryViewKept(s, s1, mo, j, mf);
      }
    }
  }

  lemma LowEntryViewKept(s: State, s': State, p: int, j: nat, x: int)
    requires Tree(s) && Grows(s, s', x) && RoleAt(s, p).Mid? && RoleAt(s, x).Mid? && j < NUM_PTE_ENTRIES
    requires p == x ==> At(s', p)[j] == At(s, p)[j]
    ensures ViewLow(s', At(s', p)[j]) == ViewLow(s, At(s, p)[j])
  {
    assert EntryOk(s, s.role[p], j, s.mem[p][j]);
    if s.mem[p][j].v { LowViewKept(s, s', Target(s, s.mem[p][j]), x); }
  }

  // ---- The outer loop -----------------------------------------------------------------

  ghost predicate RootSetting(s: State, ro: int, rf: int, h: nat) {
    && Inv(s)
    && Frame(ro) && s.role[ro].Root? && Frame(rf) && s.role[rf] == Root(h) && ro != rf
  }

  ghost predicate MidTreeCopied(s: State, s': State, ro: int, rf: int, i: nat)
    requires i < NUM_PTE_ENTRIES
  {
    && Grows(s, s', rf) && s'.roots == s.roots && s'.root == s.root
    && (forall i' :: 0 <= i' < NUM_PTE_ENTRIES && i' != i ==> At(s', rf)[i'] == At(s, rf)[i'])
    && ViewMid(s', At(s', rf)[i]) == ViewMid(s, At(s, ro)[i])
  }

  lemma FullMidCopy(s: State, s': State, mo: int, mf: int)
    requires MidCopied(s, s', mo, mf, NUM_PTE_ENTRIES)
    ensures MidView(s', mf) == MidView(s, mo)
  {
  }

  lemma CopyRootEntryWorks(s: State, ro: int, rf: int, h: nat, i: nat, mode: Mode)
    requires RootSetting(s, ro, rf, h) && i < NUM_PTE_ENTRIES && At(s, rf)[i] == ZERO_PTE
    requires CopyRootEntry(s, ro, rf, h, i, mode).Some?
    ensures var s' := CopyRootEntry(s, ro, rf, h, i, mode).value;
      RootSetting(s', ro, rf, h) && MidTreeCopied(s, s', ro, rf, i)
  {
    hide Building, Grows, CopyMid, ViewMid;
    if s.mem[ro][i].v {
      MidTreeLinked(s, ro, rf, h, i, mode, FirstFree(s.inUse, 0).value);
    } else {
      GrowsReflexive(s, rf);
      BlankShows(s, ro, rf, i);
    }
  }

  lemma MidTreeLinked(s: State, ro: int, rf: int, h: nat, i: nat, mode: Mode, mf: nat)
    requires RootSetting(s, ro, rf, h) && i < NUM_PTE_ENTRIES && At(s, rf)[i] == ZERO_PTE
    requires s.mem[ro][i].v && Fresh(s, mf)
    requires CopyMid(Take(s, mf, Mid(h, i)), Target(s, s.mem[ro][i]), mf, h, i, NUM_PTE_ENTRIES, mode).Some?
    ensures var s2 := CopyMid(Take(s, mf, Mid(h, i)), Target(s, s.mem[ro][i]), mf, h, i, NUM_PTE_ENTRIES, mode).value;
      var s' := Put(s2, rf, i, Redirect(s2, At(s2, ro)[i], mf));
      RootSetting(s', ro, rf, h) && MidTreeCopied(s, s', ro, rf, i)
  {
    hide Building, Tree, Grows, MidTreeCopied, CopyMid;
    BuildingTree(s, {});
    EntryFacts(s, ro, i);
    EntryFacts(s, rf, i);
    BlankFrame(s, mf);
    var e := s.mem[ro][i];
    var s1 := Take(s, mf, Mid(h, i));
    var mo := Target(s, e);
    TakeKeeps(s, mf, Mid(h, i), {});
    CopyMidWorks(s1, mo, mf, h, i, NUM_PTE_ENTRIES, mode, {} + {mf});
    var s2 := CopyMid(s1, mo, mf, h, i, NUM_PTE_ENTRIES, mode).value;
    TakeGrows(s, mf, Mid(h, i), rf);
    GrowsPastFresh(s, s1, s2, rf, mf);
    GrowsAt(s1, s2, mf, rf);
    GrowsAt(s1, s2, mf, ro);
    GrowsAt(s1, s2, mf, mo);
    LinkChild(s2, rf, i, e, s.role[ro], mf, {});
    BuildingTree(s1, {} + {mf});
    BuildingTree(s2, {} + {mf});
    MidTreeView(s, s1, s2, ro, rf, mf, i);
  }

  lemma MidTreeView(s: State, s1: State, s2: State, ro: int, rf: int, mf: int, i: nat)
    requires Tree(s) && Tree(s1) && Tree(s2) && i < NUM_PTE_ENTRIES && ro != rf
    requires RoleAt(s, ro).Root? && s.mem[ro][i].v && RoleAt(s, rf).Root? && Fresh(s, mf)
    requires s1 == Take(s, mf, Mid(s.role[rf].h, i))
    requires Grows(s, s2, rf) && Grows(s1, s2, mf) && s2.roots == s1.roots && s2.root == s1.root
    requires MidCopied(s1, s2, Target(s, s.mem[ro][i]), mf, NUM_PTE_ENTRIES)
    ensures MidTreeCopied(s, Put(s2, rf, i, Redirect(s2, s2.mem[ro][i], mf)), ro, rf, i)
  {
    hide Tree, Grows, MidCopied, ViewLow, MidView;
    EntryFacts(s, ro, i);
    EntryFacts(s, rf, i);
    var mo := Target(s, s.mem[ro][i]);
    var e' := Redirect(s2, s2.mem[ro][i], mf);
    var s' := Put(s2, rf, i, e');
    TakeGrows(s, mf, Mid(s.role[rf].h, i), rf);
    LinkGrows(s2, rf, i, e');
    GrowsTransitive(s, s2, s', rf);
    GrowsAt(s1, s2, mf, rf);
    GrowsAt(s1, s2, mf, ro);
    GrowsAt(s1, s2, mf, mf);
    FullMidCopy(s1, s2, mo, mf);
    MidViewKept(s, s1, mo, rf);
    MidViewKept(s2, s', mf, rf);
  }

  ghost predicate RootCopied(s: State, s': State, ro: int, rf: int, n: nat) {
    && Grows(s, s', rf) && s'.roots == s.roots && s'.root == s.root
    && BlankFrom(s', rf, n)
    && (forall i :: 0 <= i < n && i < NUM_PTE_ENTRIES ==> ViewMid(s', At(s', rf)[i]) == ViewMid(s, At(s, ro)[i]))
  }

  lemma {:induction false} CopyRootWorks(s: State, ro: int, rf: int, h: nat, n: nat, mode: Mode)
    requires RootSetting(s, ro, rf, h) && n <= NUM_PTE_ENTRIES && BlankFrom(s, rf, 0)
    requires CopyRoot(s, ro, rf, h, n, mode).Some?
    ensures var s' := CopyRoot(s, ro, rf, h, n, mode).value;
      RootSetting(s', ro, rf, h) && RootCopied(s, s', ro, rf, n)
  {
    hide Building, Inv, Grows, RootSetting, ViewMid, Tree, CopyRootEntry;
    if n == 0 {
      GrowsReflexive(s, rf);
    } else {
      CopyRootWorks(s, ro, rf, h, n - 1, mode);
      var s1 := CopyRoot(s, ro, rf, h, n - 1, mode).value;
      RootSettingTree(s, ro, rf, h);
      RootSettingTree(s1, ro, rf, h);
      CopyRootEntryWorks(s1, ro, rf, h, n - 1, mode);
      var s2 := CopyRootEntry(s1, ro, rf, h, n - 1, mode).value;
      RootCopiedStep(s, s1, s2, ro, rf, n);
    }
  }

  lemma RootSettingTree(s: State, ro: int, rf: int, h: nat)
    requires RootSetting(s, ro, rf, h)
    ensures Tree(s) && RoleAt(s, ro).Root? && RoleAt(s, rf).Root? && ro != rf
  {
  }

  lemma RootCopiedStep(s: State, s1: State, s2: State, ro: int, rf: int, n: nat)
    requires Tree(s) && RoleAt(s, ro).Root? && RoleAt(s, rf).Root? && ro != rf
    requires Tree(s1) && RoleAt(s1, ro).Root? && RoleAt(s1, rf).Root? && 0 < n <= NUM_PTE_ENTRIES
    requires RootCopied(s, s1, ro, rf, n - 1) && MidTreeCopied(s1, s2, ro, rf, n - 1)
    ensures RootCopied(s, s2, ro, rf, n)
  {
    hide Tree, Grows, ViewMid;
    GrowsTransitive(s, s1, s2, rf);
    forall i | 0 <= i < n ensures ViewMid(s2, At(s2, rf)[i]) == ViewMid(s, At(s, ro)[i]) {
      if i < n - 1 {
        MidEntryViewKept(s1, s2, rf, i, rf);
      } else {
        MidEntryViewKept(s, s1, ro, i, rf);
      }
    }
  }

  lemma MidEntryViewKept(s: State, s': State, p: int, i: nat, x: int)
    requires Tree(s) && Grows(s, s', x) && RoleAt(s, p).Root? && RoleAt(s, x).Root? && i < NUM_PTE_ENTRIES
    requires p == x ==> At(s', p)[i] == At(s, p)[i]
    ensures ViewMid(s', At(s', p)[i]) == ViewMid(s, At(s, p)[i])
  {
    assert EntryOk(s, s.role[p], i, s.mem[p][i]);
    if s.mem[p][i].v { MidViewKept(s, s', Target(s, s.mem[p][i]), x); }
  }

  // ---- The whole fork -----------------------------------------------------------------

  /** Both forks: every existing private memory is unchanged, and the new root stands for an
      exact copy of the current one. */
  lemma ForkWorks(s: State, mode: Mode)
    requires Inv(s) && Fork(s, mode).Some?
    ensures var s' := Fork(s, mode).value;
      && Inv(s') && s'.root == s.root && s'.base == s.base
      && FirstFree(s.inUse, 0).Some? && s'.roots == s.roots + [FirstFree(s.inUse, 0).value]
      && s.role[s.root].h < |s.roots| && s'.role[s.root] == s.role[s.root]
      && Spaces(s') == Spaces(s) + [Spaces(s)[s.role[s.root].h]]
  {
    var rf := FirstFree(s.inUse, 0).value;
    var s1 := TakeRoot(s, rf);
    TakeRootKeeps(s, rf, {});
    var ro := s.root;
    assert s.inUse[ro] && RootSetting(s1, ro, rf, |s.roots|);
    CopyRootWorks(s1, ro, rf, |s.roots|, NUM_PTE_ENTRIES, mode);
    var s' := Fork(s, mode).value;
    ForkViews(s, s1, s', rf);
  }

  lemma ForkViews(s: State, s1: State, s': State, rf: int)
    requires Tree(s) && RootsOk(s) && Tree(s1) && Fresh(s, rf) && s1 == TakeRoot(s, rf)
    requires RootCopied(s1, s', s.root, rf, NUM_PTE_ENTRIES)
    ensures s'.role[s.root] == s.role[s.root]
    ensures Spaces(s') == Spaces(s) + [Spaces(s)[s.role[s.root].h]]
  {
    var h := s.role[s.root].h;
    assert RootView(s', rf) == RootView(s1, s.root);
    RootViewKept(s, s1, s.root, rf);
    forall g | 0 <= g < |s.roots| ensures RootView(s', s.roots[g]) == RootView(s, s.roots[g]) {
      RootViewKept(s, s1, s.roots[g], rf);
      RootViewKept(s1, s', s.roots[g], rf);
    }
  }

  // ---- A fresh table, about to be filled ----------------------------------------------

  lemma LowStart(s: State, mo: int, mf: int, h: nat, i: nat, j: nat, p: nat, open: set<int>)
    requires MidSetting(s, mo, mf, h, i, open) && j < NUM_PTE_ENTRIES && At(s, mo)[j].v && Fresh(s, p)
    ensures var s1 := Take(s, p, Low(h, i, j));
      LowSetting(s1, Target(s, At(s, mo)[j]), p, open + {p}) && BlankFrom(s1, p, 0)
  {
    hide Building, Tree;
    BuildingTree(s, open);
    EntryFacts(s, mo, j);
    BlankFrame(s, p);
    TakeKeeps(s, p, Low(h, i, j), open);
  }

  lemma InvIsBuilding(s: State)
    requires Inv(s)
    ensures Building(s, {})
  {
  }

  lemma MidStart(s: State, ro: int, rf: int, h: nat, i: nat, p: nat)
    requires RootSetting(s, ro, rf, h) && i < NUM_PTE_ENTRIES && At(s, ro)[i].v && Fresh(s, p)
    ensures var s1 := Take(s, p, Mid(h, i));
      MidSetting(s1, Target(s, At(s, ro)[i]), p, h, i, {} + {p}) && BlankFrom(s1, p, 0)
  {
    RootSettingTree(s, ro, rf, h);
    hide Inv, Building, Tree;
    EntryFacts(s, ro, i);
    BlankFrame(s, p);
    InvIsBuilding(s);
    TakeKeeps(s, p, Mid(h, i), {});
  }

  lemma RootStart(s: State, p: nat)
    requires Inv(s) && Fresh(s, p)
    ensures RootSetting(TakeRoot(s, p), s.root, p, |s.roots|) && BlankFrom(TakeRoot(s, p), p, 0)
  {
    TakeRootKeeps(s, p, {});
    assert s.inUse[s.root];
    hide SharingOk, CountsOk, TablesOk, UsedOk, LinksOk;
  }
}
