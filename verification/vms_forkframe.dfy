/** What a fork leaves alone, and where it puts the new tree. */
module VmsForkFrame {
  import opened VmsPte
  import opened VmsMachine
  import opened VmsSteps
  import opened VmsSpace
  import opened VmsFork
  import opened VmsCount

  // ---- An eager fork ------------------------------------------------------------------

  /** Pages in use stay in use; all but `x` keep their contents. */
  ghost predicate Untouched(s: State, s': State, x: int) {
    forall p :: 0 <= p < MAX_PAGES && s.inUse[p] ==>
      s'.inUse[p] && s'.role[p] == s.role[p] && (p != x ==> s'.mem[p] == s.mem[p])
  }

  lemma LeafUntouched(s: State, lo: int, lf: int, k: nat)
    requires k < NUM_PTE_ENTRIES && CopyLeaf(s, lo, lf, k, Eager).Some?
    ensures Untouched(s, CopyLeaf(s, lo, lf, k, Eager).value, lf)
  {
  }

  lemma {:induction false} LowUntouched(s: State, lo: int, lf: int, n: nat)
    requires n <= NUM_PTE_ENTRIES && CopyLow(s, lo, lf, n, Eager).Some?
    ensures Untouched(s, CopyLow(s, lo, lf, n, Eager).value, lf)
  {
    hide CopyLeaf;
    if n > 0 {
      LowUntouched(s, lo, lf, n - 1);
      LeafUntouched(CopyLow(s, lo, lf, n - 1, Eager).value, lo, lf, n - 1);
    }
  }

  lemma MidEntryUntouched(s: State, mo: int, mf: int, h: nat, i: nat, j: nat)
    requires j < NUM_PTE_ENTRIES && CopyMidEntry(s, mo, mf, h, i, j, Eager).Some?
    ensures Untouched(s, CopyMidEntry(s, mo, mf, h, i, j, Eager).value, mf)
  {
    hide CopyLow;
    var e := At(s, mo)[j];
    if e.v {
      var (s1, lf) := Alloc(s, Low(h, i, j)).value;
      LowUntouched(s1, Target(s, e), lf, NUM_PTE_ENTRIES);
    }
  }

  lemma {:induction false} MidUntouched(s: State, mo: int, mf: int, h: nat, i: nat, n: nat)
    requires n <= NUM_PTE_ENTRIES && CopyMid(s, mo, mf, h, i, n, Eager).Some?
    ensures Untouched(s, CopyMid(s, mo, mf, h, i, n, Eager).value, mf)
  {
    hide CopyMidEntry;
    if n > 0 {
      MidUntouched(s, mo, mf, h, i, n - 1);
      MidEntryUntouched(CopyMid(s, mo, mf, h, i, n - 1, Eager).value, mo, mf, h, i, n - 1);
    }
  }

  lemma RootEntryUntouched(s: State, ro: int, rf: int, h: nat, i: nat)
    requires i < NUM_PTE_ENTRIES && CopyRootEntry(s, ro, rf, h, i, Eager).Some?
    ensures Untouched(s, CopyRootEntry(s, ro, rf, h, i, Eager).value, rf)
  {
    hide CopyMid;
    var e := At(s, ro)[i];
    if e.v {
      var (s1, mf) := Alloc(s, Mid(h, i)).value;
      MidUntouched(s1, Target(s, e), mf, h, i, NUM_PTE_ENTRIES);
    }
  }

  lemma {:induction false} RootUntouched(s: State, ro: int, rf: int, h: nat, n: nat)
    requires n <= NUM_PTE_ENTRIES && CopyRoot(s, ro, rf, h, n, Eager).Some?
    ensures Untouched(s, CopyRoot(s, ro, rf, h, n, Eager).value, rf)
  {
    hide CopyRootEntry;
    if n > 0 {
      RootUntouched(s, ro, rf, h, n - 1);
      RootEntryUntouched(CopyRoot(s, ro, rf, h, n - 1, Eager).value, ro, rf, h, n - 1);
    }
  }

  /** An eager fork writes to new pages only. */
  lemma EagerForkWritesNewPages(s: State)
    requires Fork(s, Eager).Some?
    ensures forall p :: 0 <= p < MAX_PAGES && s.inUse[p] ==>
      Fork(s, Eager).value.inUse[p] && Fork(s, Eager).value.mem[p] == s.mem[p]
  {
    hide CopyRoot;
    var rf := FirstFree(s.inUse, 0).value;
    RootUntouched(TakeRoot(s, rf), s.root, rf, |s.roots|, NUM_PTE_ENTRIES);
  }

  // ---- Forked entries -----------------------------------------------------------------

  /** A leaf entry forked eagerly is the original one but for the page, a new one that holds
      what the old one holds; the original stays. */
  lemma LeafEntryCopied(s: State, lo: int, lf: int, k: nat)
    requires Frame(lo) && Frame(lf) && lo != lf && s.inUse[lo] && s.inUse[lf] && k < NUM_PTE_ENTRIES
    requires s.mem[lo][k].v && Frame(Target(s, s.mem[lo][k])) && s.inUse[Target(s, s.mem[lo][k])]
    requires lf != Target(s, s.mem[lo][k]) && CopyLeaf(s, lo, lf, k, Eager).Some?
    ensures var s' := CopyLeaf(s, lo, lf, k, Eager).value;
      var e, n := s.mem[lo][k], FirstFree(s.inUse, 0).value;
      s'.mem[lo][k] == e && s'.mem[lf][k] == e.(ppn := s.base + n) && s'.mem[n] == s.mem[e.ppn - s.base]
  {
    var e, n := s.mem[lo][k], FirstFree(s.inUse, 0).value;
    hide FirstFree;
    assert s.inUse[lo] && s.inUse[lf] && !s.inUse[n];
  }

  /** A leaf entry forked lazily is the same as the original one after the copy: both trade a
      write bit for the custom bit, and nothing else of them changes. */
  lemma LeafEntryShared(s: State, lo: int, lf: int, k: nat)
    requires Frame(lo) && Frame(lf) && lo != lf && k < NUM_PTE_ENTRIES && s.mem[lo][k].v
    requires CopyLeaf(s, lo, lf, k, Cow).Some?
    ensures var s' := CopyLeaf(s, lo, lf, k, Cow).value;
      var e := s.mem[lo][k];
      && s'.mem[lf][k] == s'.mem[lo][k]
      && s'.mem[lo][k] == if e.w || e.c then e.(w := false, c := true) else e
  {
  }

  /** A forked upper entry is the original one but for the table it leads to. */
  lemma MidEntryCopied(s: State, mo: int, mf: int, h: nat, i: nat, j: nat, mode: Mode)
    requires Frame(mo) && Frame(mf) && mo != mf && j < NUM_PTE_ENTRIES && s.mem[mo][j].v
    requires CopyMidEntry(s, mo, mf, h, i, j, mode).Some?
    ensures var s' := CopyMidEntry(s, mo, mf, h, i, j, mode).value;
      s'.mem[mf][j] == s'.mem[mo][j].(ppn := s'.mem[mf][j].ppn)
  {
    hide CopyLow;
  }

  lemma RootEntryCopied(s: State, ro: int, rf: int, h: nat, i: nat, mode: Mode)
    requires Frame(ro) && Frame(rf) && ro != rf && i < NUM_PTE_ENTRIES && s.mem[ro][i].v
    requires CopyRootEntry(s, ro, rf, h, i, mode).Some?
    ensures var s' := CopyRootEntry(s, ro, rf, h, i, mode).value;
      s'.mem[rf][i] == s'.mem[ro][i].(ppn := s'.mem[rf][i].ppn)
  {
    hide CopyMid;
  }

  // ---- A lazy fork --------------------------------------------------------------------

  /** A fork of either kind changes the pages in use at most in writable leaf entries, which
      trade the write bit for the custom bit. */
  lemma ForkEditsWritableLeaves(s: State, mode: Mode)
    requires Inv(s) && Fork(s, mode).Some?
    ensures var s' := Fork(s, mode).value;
      forall p :: 0 <= p < MAX_PAGES && s.inUse[p] ==>
        && s'.inUse[p] && s'.role[p] == s.role[p] && (!s.role[p].Low? ==> s'.mem[p] == s.mem[p])
        && (s.role[p].Low? ==> forall k :: 0 <= k < NUM_PTE_ENTRIES ==> SameView(s.mem[p][k], s'.mem[p][k]))
  {
    var rf := FirstFree(s.inUse, 0).value;
    var s1 := TakeRoot(s, rf);
    TakeRootKeeps(s, rf, {});
    assert s.inUse[s.root] && RootSetting(s1, s.root, rf, |s.roots|);
    CopyRootWorks(s1, s.root, rf, |s.roots|, NUM_PTE_ENTRIES, mode);
    hide CopyRoot;
    TakeRootGrows(s, rf);
    GrowsTransitive(s, s1, Fork(s, mode).value, rf);
  }

  /** An entry after a lazy fork. */
  function Trade(e: Pte): Pte { if e.v && (e.w || e.c) then Lazy(e) else e }

  /** Table `p` of a lazy fork, traded up to entry `n`. */
  ghost predicate TradedUpTo(s: State, s': State, p: int, n: nat)
    requires Frame(p)
  {
    forall k :: 0 <= k < NUM_PTE_ENTRIES ==> s'.mem[p][k] == if k < n then Trade(s.mem[p][k]) else s.mem[p][k]
  }

  lemma {:induction false} LowTraded(s: State, lo: int, lf: int, n: nat)
    requires Frame(lo) && lo != lf && n <= NUM_PTE_ENTRIES && CopyLow(s, lo, lf, n, Cow).Some?
    ensures var s' := CopyLow(s, lo, lf, n, Cow).value;
      && s'.inUse == s.inUse && s'.base == s.base && TradedUpTo(s, s', lo, n)
      && forall p :: 0 <= p < MAX_PAGES && p != lo && p != lf ==> s'.mem[p] == s.mem[p]
  {
    if n > 0 {
      LowTraded(s, lo, lf, n - 1);
      var s1 := CopyLow(s, lo, lf, n - 1, Cow).value;
      assert s1.mem[lo][n - 1] == s.mem[lo][n - 1];
    }
  }

  /** Leaf table `p` hangs below one of the first `n` entries of middle table `mo`. */
  predicate BelowMid(s: State, mo: int, n: nat, p: int) {
    && RoleAt(s, p).Low? && Frame(mo) && s.role[p].j < n && s.role[p].j < NUM_PTE_ENTRIES
    && s.mem[mo][s.role[p].j].v && Target(s, s.mem[mo][s.role[p].j]) == p
  }

  /** The pages in use, after a lazy copy of the first entries of a middle table. */
  ghost predicate MidTraded(s: State, s': State, mo: int, mf: int, n: nat) {
    forall p :: 0 <= p < MAX_PAGES && s.inUse[p] && p != mf ==>
      if BelowMid(s, mo, n, p) then TradedUpTo(s, s', p, NUM_PTE_ENTRIES) else s'.mem[p] == s.mem[p]
  }

  lemma {:induction false} MidIsTraded(s: State, mo: int, mf: int, h: nat, i: nat, n: nat, open: set<int>)
    requires MidSetting(s, mo, mf, h, i, open) && BlankFrom(s, mf, 0)
    requires n <= NUM_PTE_ENTRIES && CopyMid(s, mo, mf, h, i, n, Cow).Some?
    ensures MidTraded(s, CopyMid(s, mo, mf, h, i, n, Cow).value, mo, mf, n)
  {
    hide Building, Grows, MidTraded, CopyMidEntry;
    if n == 0 {
      NothingTraded(s, mo, mf);
    } else {
      MidIsTraded(s, mo, mf, h, i, n - 1, open);
      CopyMidWorks(s, mo, mf, h, i, n - 1, Cow, open);
      var s1 := CopyMid(s, mo, mf, h, i, n - 1, Cow).value;
      MidEntryTraded(s, s1, mo, mf, h, i, n - 1, open);
    }
  }

  lemma NothingTraded(s: State, mo: int, mf: int)
    ensures MidTraded(s, s, mo, mf, 0)
  {
  }

  lemma MidEntryTraded(s: State, s1: State, mo: int, mf: int, h: nat, i: nat, j: nat, open: set<int>)
    requires MidSetting(s, mo, mf, h, i, open) && MidSetting(s1, mo, mf, h, i, open) && Grows(s, s1, mf)
    requires j < NUM_PTE_ENTRIES && MidTraded(s, s1, mo, mf, j) && CopyMidEntry(s1, mo, mf, h, i, j, Cow).Some?
    ensures MidTraded(s, CopyMidEntry(s1, mo, mf, h, i, j, Cow).value, mo, mf, j + 1)
  {
    hide Building, CopyLow, Tree;
    MidSettingTree(s, mo, mf, h, i, open);
    MidSettingTree(s1, mo, mf, h, i, open);
    EntryFacts(s, mo, j);
    EntryFacts(s1, mo, j);
    EntryFacts(s1, mf, j);
    GrowsAt(s, s1, mf, mo);
    if s.mem[mo][j].v {
      var lo, lf := Target(s, s.mem[mo][j]), FirstFree(s1.inUse, 0).value;
      GrowsAt(s, s1, mf, lo);
      LowTraded(Take(s1, lf, Low(h, i, j)), lo, lf, NUM_PTE_ENTRIES);
    }
  }

  /** Leaf table `p` hangs below one of the first `n` entries of root table `ro`. */
  predicate BelowRoot(s: State, ro: int, n: nat, p: int) {
    && RoleAt(s, p).Low? && Frame(ro) && s.role[p].i < n && s.role[p].i < NUM_PTE_ENTRIES
    && s.mem[ro][s.role[p].i].v && BelowMid(s, Target(s, s.mem[ro][s.role[p].i]), NUM_PTE_ENTRIES, p)
  }

  ghost predicate RootTraded(s: State, s': State, ro: int, rf: int, n: nat) {
    forall p :: 0 <= p < MAX_PAGES && s.inUse[p] && p != rf ==>
      if BelowRoot(s, ro, n, p) then TradedUpTo(s, s', p, NUM_PTE_ENTRIES) else s'.mem[p] == s.mem[p]
  }

  lemma {:induction false} RootIsTraded(s: State, ro: int, rf: int, h: nat, n: nat)
    requires RootSetting(s, ro, rf, h) && BlankFrom(s, rf, 0)
    requires n <= NUM_PTE_ENTRIES && CopyRoot(s, ro, rf, h, n, Cow).Some?
    ensures RootTraded(s, CopyRoot(s, ro, rf, h, n, Cow).value, ro, rf, n)
  {
    hide Inv, Grows, RootTraded, CopyRootEntry;
    if n == 0 {
      NoTableTraded(s, ro, rf);
    } else {
      RootIsTraded(s, ro, rf, h, n - 1);
      CopyRootWorks(s, ro, rf, h, n - 1, Cow);
      var s1 := CopyRoot(s, ro, rf, h, n - 1, Cow).value;
      RootEntryTraded(s, s1, ro, rf, h, n - 1);
    }
  }

  lemma NoTableTraded(s: State, ro: int, rf: int)
    ensures RootTraded(s, s, ro, rf, 0)
  {
  }

  lemma RootEntryTraded(s: State, s1: State, ro: int, rf: int, h: nat, i: nat)
    requires RootSetting(s, ro, rf, h) && RootSetting(s1, ro, rf, h) && Grows(s, s1, rf)
    requires i < NUM_PTE_ENTRIES && RootTraded(s, s1, ro, rf, i) && CopyRootEntry(s1, ro, rf, h, i, Cow).Some?
    ensures RootTraded(s, CopyRootEntry(s1, ro, rf, h, i, Cow).value, ro, rf, i + 1)
  {
    hide Inv, CopyMid, Tree, BelowMid, BelowRoot, RootSetting, RootTraded, MidTraded, MidSetting, BlankFrom;
    RootSettingTree(s, ro, rf, h);
    RootSettingTree(s1, ro, rf, h);
    EntryFacts(s, ro, i);
    EntryFacts(s1, ro, i);
    EntryFacts(s1, rf, i);
    GrowsAt(s, s1, rf, ro);
    if s.mem[ro][i].v {
      var mo, mf := Target(s, s.mem[ro][i]), FirstFree(s1.inUse, 0).value;
      var s2 := Take(s1, mf, Mid(h, i));
      MidStart(s1, ro, rf, h, i, mf);
      MidIsTraded(s2, mo, mf, h, i, NUM_PTE_ENTRIES, {} + {mf});
      var s3 := CopyMid(s2, mo, mf, h, i, NUM_PTE_ENTRIES, Cow).value;
      TreeAdded(s, s1, s3, ro, rf, mo, mf, i, Mid(h, i));
      EntryPut(s, s3, ro, rf, i, Redirect(s3, At(s3, ro)[i], mf));
    } else {
      NothingAdded(s, s1, ro, rf, i);
    }
  }

  lemma EntryPut(s: State, s3: State, ro: int, rf: int, i: nat, e: Pte)
    requires i < NUM_PTE_ENTRIES && RootTraded(s, s3, ro, rf, i + 1)
    ensures RootTraded(s, Put(s3, rf, i, e), ro, rf, i + 1)
  {
    hide BelowRoot;
  }

  lemma NothingAdded(s: State, s1: State, ro: int, rf: int, i: nat)
    requires Frame(ro) && i < NUM_PTE_ENTRIES && !s.mem[ro][i].v && RootTraded(s, s1, ro, rf, i)
    ensures RootTraded(s, s1, ro, rf, i + 1)
  {
    hide BelowMid;
    forall p | 0 <= p < MAX_PAGES ensures BelowRoot(s, ro, i + 1, p) == BelowRoot(s, ro, i, p) {}
    hide TradedUpTo;
  }

  /** One more middle table has been copied. */
  lemma TreeAdded(s: State, s1: State, s3: State, ro: int, rf: int, mo: int, mf: nat, i: nat, role: Role)
    requires Tree(s) && Grows(s, s1, rf) && RootTraded(s, s1, ro, rf, i) && RoleAt(s, ro).Root? && i < NUM_PTE_ENTRIES
    requires s.mem[ro][i].v && mo == Target(s, s.mem[ro][i]) && mo != rf && Frame(mf) && !s1.inUse[mf]
    requires MidTraded(Take(s1, mf, role), s3, mo, mf, NUM_PTE_ENTRIES)
    ensures RootTraded(s, s3, ro, rf, i + 1)
  {
    hide Tree, Grows, RootTraded, MidTraded, TradedUpTo, BelowMid, BelowRoot;
    EntryFacts(s, ro, i);
    forall p | 0 <= p < MAX_PAGES && s.inUse[p] && p != rf
      ensures if BelowRoot(s, ro, i + 1, p) then TradedUpTo(s, s3, p, NUM_PTE_ENTRIES) else s3.mem[p] == s.mem[p]
    {
      TreeAddedAt(s, s1, s3, ro, rf, mo, mf, i, role, p);
    }
    RootTradedIs(s, s3, ro, rf, i + 1);
  }

  lemma RootTradedIs(s: State, s': State, ro: int, rf: int, n: nat)
    requires forall p :: 0 <= p < MAX_PAGES && s.inUse[p] && p != rf ==>
      if BelowRoot(s, ro, n, p) then TradedUpTo(s, s', p, NUM_PTE_ENTRIES) else s'.mem[p] == s.mem[p]
    ensures RootTraded(s, s', ro, rf, n)
  {
  }

  lemma TreeAddedAt(s: State, s1: State, s3: State, ro: int, rf: int, mo: int, mf: nat, i: nat, role: Role, p: int)
    requires Tree(s) && Grows(s, s1, rf) && RootTraded(s, s1, ro, rf, i) && RoleAt(s, ro).Root? && i < NUM_PTE_ENTRIES
    requires s.mem[ro][i].v && mo == Target(s, s.mem[ro][i]) && mo != rf && Frame(mf) && !s1.inUse[mf]
    requires Frame(mo) && s.inUse[mo] && s.role[mo].Mid? && s.role[mo].i == i
    requires MidTraded(Take(s1, mf, role), s3, mo, mf, NUM_PTE_ENTRIES) && Frame(p) && s.inUse[p] && p != rf
    ensures if BelowRoot(s, ro, i + 1, p) then TradedUpTo(s, s3, p, NUM_PTE_ENTRIES) else s3.mem[p] == s.mem[p]
  {
    hide Tree, Grows, BelowMid;
    GrowsAt(s, s1, rf, p);
    SameBelow(s, s1, Take(s1, mf, role), rf, mo, mf, p);
    if BelowMid(s, mo, NUM_PTE_ENTRIES, p) { BelowPosition(s, mo, p); }
    PositionOfBelow(s, mo, p);
    hide RootTraded, MidTraded;
    RootTradedAt(s, s1, ro, rf, i, p);
    MidTradedAt(Take(s1, mf, role), s3, mo, mf, p);
  }

  lemma PositionOfBelow(s: State, mo: int, p: int)
    ensures BelowMid(s, mo, NUM_PTE_ENTRIES, p) ==> RoleAt(s, p).Low?
  {
  }

  lemma RootTradedAt(s: State, s': State, ro: int, rf: int, n: nat, p: int)
    requires RootTraded(s, s', ro, rf, n) && Frame(p) && s.inUse[p] && p != rf
    ensures if BelowRoot(s, ro, n, p) then TradedUpTo(s, s', p, NUM_PTE_ENTRIES) else s'.mem[p] == s.mem[p]
  {
  }

  lemma MidTradedAt(s: State, s': State, mo: int, mf: int, p: int)
    requires MidTraded(s, s', mo, mf, NUM_PTE_ENTRIES) && Frame(p) && s.inUse[p] && p != mf
    ensures if BelowMid(s, mo, NUM_PTE_ENTRIES, p) then TradedUpTo(s, s', p, NUM_PTE_ENTRIES) else s'.mem[p] == s.mem[p]
  {
  }

  lemma SameBelow(s: State, s1: State, s2: State, x: int, mo: int, mf: nat, p: int)
    requires Grows(s, s1, x) && Frame(mf) && s2 == Take(s1, mf, s2.role[mf]) && !s1.inUse[mf] && Frame(p) && s.inUse[p]
    requires Frame(mo) && s.inUse[mo] && s.role[mo].Mid? && mo != x
    ensures BelowMid(s2, mo, NUM_PTE_ENTRIES, p) <==> BelowMid(s, mo, NUM_PTE_ENTRIES, p)
  {
    GrowsAt(s, s1, x, mo);
    GrowsAt(s, s1, x, p);
  }

  lemma BelowPosition(s: State, mo: int, p: int)
    requires Tree(s) && RoleAt(s, mo).Mid? && BelowMid(s, mo, NUM_PTE_ENTRIES, p)
    ensures s.role[p].h == s.role[mo].h && s.role[p].i == s.role[mo].i
  {
    EntryFacts(s, mo, s.role[p].j);
  }

  /** A lazy fork, exactly: in the leaf tables of the current tree every writable or custom
      entry becomes a custom one; every other page in use, in this tree or another one, is as
      it was. */
  lemma LazyForkEdits(s: State, p: int)
    requires Inv(s) && Fork(s, Cow).Some? && Frame(p) && s.inUse[p]
    ensures s.role[s.root].Root?
    ensures var s' := Fork(s, Cow).value;
      if s.role[p].Low? && s.role[p].h == s.role[s.root].h
      then TradedUpTo(s, s', p, NUM_PTE_ENTRIES)
      else s'.mem[p] == s.mem[p]
  {
    hide Inv, CopyRoot, TradedUpTo, RootSetting, BelowRoot;
    AllocSucceedsFor(s);
    var rf := FirstFree(s.inUse, 0).value;
    var s1 := TakeRoot(s, rf);
    RootStart(s, rf);
    RootIsTraded(s1, s.root, rf, |s.roots|, NUM_PTE_ENTRIES);
    BelowCurrentRoot(s, s1, rf, p);
    TradedFromStart(s, s1, Fork(s, Cow).value, p, rf);
  }

  lemma AllocSucceedsFor(s: State)
    requires Inv(s) && Fork(s, Cow).Some?
    ensures FirstFree(s.inUse, 0).Some? && Fresh(s, FirstFree(s.inUse, 0).value) && s.role[s.root].Root?
  {
  }

  lemma TradedFromStart(s: State, s1: State, s': State, p: int, rf: int)
    requires Frame(rf) && s1 == TakeRoot(s, rf) && Frame(p)
    ensures TradedUpTo(s, s', p, NUM_PTE_ENTRIES) <==> TradedUpTo(s1, s', p, NUM_PTE_ENTRIES)
  {
  }

  /** The leaf tables below the current root are those of its tree. */
  lemma BelowCurrentRoot(s: State, s1: State, rf: int, p: int)
    requires Inv(s) && Fresh(s, rf) && s1 == TakeRoot(s, rf) && Frame(p) && s.inUse[p]
    ensures BelowRoot(s1, s.root, NUM_PTE_ENTRIES, p) <==> s.role[p].Low? && s.role[p].h == s.role[s.root].h
  {
    assert s.inUse[s.root];
    if BelowRoot(s1, s.root, NUM_PTE_ENTRIES, p) {
      EntryFacts(s, s.root, s.role[p].i);
      BelowPosition(s, Target(s, s.mem[s.root][s.role[p].i]), p);
    }
    if s.role[p].Low? && s.role[p].h == s.role[s.root].h {
      var h, i, j := s.role[p].h, s.role[p].i, s.role[p].j;
      assert Linked(s, p);
      var m :| LinksTo(s, m, Mid(h, i), j, p);
      assert Linked(s, m);
      var r :| LinksTo(s, r, Root(h), i, m);
      assert r == s.root;
      assert m != rf;
    }
  }

  // ---- The new tree -------------------------------------------------------------------

  /** The tree to which a table belongs. */
  function TreeOf(r: Role): nat
    requires IsTable(r)
  {
    r.h
  }

  /** Every table belongs to the tree of an existing root. */
  lemma TreesHaveRoots(s: State, p: int)
    requires Inv(s) && Frame(p) && IsTable(s.role[p])
    ensures TreeOf(s.role[p]) < |s.roots|
  {
    assert Linked(s, p);
    if s.role[p].Mid? {
      var t :| LinksTo(s, t, Root(s.role[p].h), s.role[p].i, p);
    } else if s.role[p].Low? {
      var t :| LinksTo(s, t, Mid(s.role[p].h, s.role[p].i), s.role[p].j, p);
      assert Linked(s, t);
      var u :| LinksTo(s, u, Root(s.role[t].h), s.role[t].i, t);
    }
  }

  /** The tables of the new tree are pages that were free before: it is disjoint from every
      other tree. */
  lemma NewTreeIsFresh(s: State, mode: Mode, p: int)
    requires Inv(s) && Fork(s, mode).Some? && Frame(p)
    requires IsTable(Fork(s, mode).value.role[p]) && TreeOf(Fork(s, mode).value.role[p]) == |s.roots|
    ensures !s.inUse[p]
  {
    ForkEditsWritableLeaves(s, mode);
    hide Fork;
    if s.inUse[p] { TreesHaveRoots(s, p); }
  }
}
