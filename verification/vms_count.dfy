/** How many frames a fork takes, exactly when it runs out of them, and what is conserved
    when a shared page is split. */
module VmsCount {
  import opened VmsPte
  import opened VmsMachine
  import opened VmsSteps
  import opened VmsSpace
  import opened VmsFault
  import opened VmsFork
  import opened Wrappers
  import opened Sums

  // ---- The cost of a fork, read off the private memory it copies ----------------------

  function LeafNeed(mode: Mode, leaf: Option<Mapping>): nat {
    if leaf.Some? && mode == Eager then 1 else 0
  }

  function LowNeed(mode: Mode, low: LowSpace, n: nat): nat
    requires n <= |low|
  {
    if n == 0 then 0 else LowNeed(mode, low, n - 1) + LeafNeed(mode, low[n - 1])
  }

  function LowTreeNeed(mode: Mode, low: Option<LowSpace>): nat {
    if low.None? then 0 else 1 + LowNeed(mode, low.value, |low.value|)
  }

  function MidNeed(mode: Mode, mid: MidSpace, n: nat): nat
    requires n <= |mid|
  {
    if n == 0 then 0 else
    MidNeed(mode, mid, n - 1) + LowTreeNeed(mode, mid[n - 1])
  }

  function MidTreeNeed(mode: Mode, mid: Option<MidSpace>): nat {
    if mid.None? then 0 else 1 + MidNeed(mode, mid.value, |mid.value|)
  }

  function SpaceNeed(mode: Mode, space: Space, n: nat): nat
    requires n <= |space|
  {
    if n == 0 then 0 else
    SpaceNeed(mode, space, n - 1) + MidTreeNeed(mode, space[n - 1])
  }

  /** Frames needed to fork a space: the root table, one frame per valid table entry and,
      when forking eagerly, one per mapped page. */
  function ForkNeed(mode: Mode, space: Space): nat { 1 + SpaceNeed(mode, space, |space|) }

  function LeafShares(mode: Mode, leaf: Option<Mapping>): nat {
    if mode == Cow && leaf.Some? && leaf.value.w then 1 else 0
  }

  function LowShares(mode: Mode, low: LowSpace, n: nat): nat
    requires n <= |low|
  {
    if n == 0 then 0 else LowShares(mode, low, n - 1) + LeafShares(mode, low[n - 1])
  }

  function LowTreeShares(mode: Mode, low: Option<LowSpace>): nat {
    if low.None? then 0 else LowShares(mode, low.value, |low.value|)
  }

  function MidShares(mode: Mode, mid: MidSpace, n: nat): nat
    requires n <= |mid|
  {
    if n == 0 then 0 else
    MidShares(mode, mid, n - 1) + LowTreeShares(mode, mid[n - 1])
  }

  function MidTreeShares(mode: Mode, mid: Option<MidSpace>): nat {
    if mid.None? then 0 else MidShares(mode, mid.value, |mid.value|)
  }

  function SpaceShares(mode: Mode, space: Space, n: nat): nat
    requires n <= |space|
  {
    if n == 0 then 0 else
    SpaceShares(mode, space, n - 1) + MidTreeShares(mode, space[n - 1])
  }

  /** References added by a fork: none when eager, one per writable page when lazy. */
  function ForkShares(mode: Mode, space: Space): nat { SpaceShares(mode, space, |space|) }

  // ---- Sums of counters ---------------------------------------------------------------

  function RefSum(s: State): int { Sum(s.ref) }

  lemma AddRefSum(s: State, q: int, d: int)
    requires Frame(q)
    ensures RefSum(AddRef(s, q, d)) == RefSum(s) + d
  {
    SumUpdate(s.ref, q, s.ref[q] + d);
  }

  /** Frames in use plus outstanding references: what a fault conserves. */
  function Claims(s: State): int { s.used + RefSum(s) }

  lemma RefsNonNegative(s: State)
    requires CountsOk(s)
    ensures RefSum(s) >= 0 && forall q :: 0 <= q < MAX_PAGES ==> 0 <= s.ref[q] <= RefSum(s)
  {
    forall q | 0 <= q < MAX_PAGES ensures 0 <= s.ref[q] <= RefSum(s) { SumNonNegative(s.ref, q); }
  }

  /** Splitting a shared page turns one reference into one frame. A fault fails only when the
      page is really shared and every frame is taken. */
  lemma FaultConserves(s: State, p: int, k: nat)
    requires Inv(s) && Frame(p) && IsTable(s.role[p]) && k < NUM_PTE_ENTRIES
    ensures Fault(s, p, k).Some? ==> Claims(Fault(s, p, k).value) == Claims(s)
    ensures Fault(s, p, k).None? <==>
      s.mem[p][k].c && s.ref[Target(s, s.mem[p][k])] > 0 && s.used == MAX_PAGES
  {
    var e := s.mem[p][k];
    assert EntryOk(s, s.role[p], k, e);
    AllocSucceeds(s);
    if e.c && s.ref[Target(s, e)] != 0 {
      var q := Target(s, e);
      var f := FirstFree(s.inUse, 0);
      if f.Some? {
        var s1 := TakeData(s, f.value, At(s, q));
        AddRefSum(Put(s1, p, k, Redirect(s1, Writable(e), f.value)), q, -1);
      }
    }
  }

  // ---- The fork loops -----------------------------------------------------------------

  ghost predicate Counted(s: State, r: Option<State>, need: nat, shares: nat) {
    match r
    case Some(s') => s'.used == s.used + need && RefSum(s') == RefSum(s) + shares
    case None => s.used + need > MAX_PAGES
  }

  lemma CountedNothing(s: State)
    ensures Counted(s, Some(s), 0, 0)
  {
  }

  lemma CountedThen(s: State, s1: State, r: Option<State>, need: nat, shares: nat, need': nat, shares': nat)
    requires Counted(s, Some(s1), need, shares) && Counted(s1, r, need', shares')
    ensures Counted(s, r, need + need', shares + shares')
  {
  }

  lemma CountedFails(s: State, need: nat, shares: nat, need': nat, shares': nat)
    requires Counted(s, None, need, shares)
    ensures Counted(s, None, need + need', shares')
  {
  }

  lemma CopyLeafCounts(s: State, lo: int, lf: int, k: nat, mode: Mode)
    requires Tree(s) && UsedOk(s) && RoleAt(s, lo).Low? && k < NUM_PTE_ENTRIES
    ensures var leaf := ViewLeaf(s, At(s, lo)[k]);
      Counted(s, CopyLeaf(s, lo, lf, k, mode), LeafNeed(mode, leaf), LeafShares(mode, leaf))
  {
    EntryFacts(s, lo, k);
    AllocSucceeds(s);
    var e := s.mem[lo][k];
    if e.v && mode == Cow && (e.w || e.c) {
      AddRefSum(Put(Put(s, lo, k, Lazy(e)), lf, k, Lazy(e)), Target(s, e), 1);
    }
  }

  lemma {:induction false} CopyLowCounts(s: State, lo: int, lf: int, n: nat, mode: Mode, open: set<int>)
    requires LowSetting(s, lo, lf, open) && n <= NUM_PTE_ENTRIES && BlankFrom(s, lf, 0)
    ensures Counted(s, CopyLow(s, lo, lf, n, mode), LowNeed(mode, LowView(s, lo), n),
      LowShares(mode, LowView(s, lo), n))
  {
    hide Building, Tree, Grows, UsedOk, ViewLeaf, CopyLeaf, LeafNeed, LeafShares, LowView, Counted;
    if n == 0 {
      CountedNothing(s);
    } else {
      CopyLowCounts(s, lo, lf, n - 1, mode, open);
      var r := CopyLow(s, lo, lf, n - 1, mode);
      var low := LowView(s, lo);
      var need, shares := LowNeed(mode, low, n - 1), LowShares(mode, low, n - 1);
      var need', shares' := LeafNeed(mode, low[n - 1]), LeafShares(mode, low[n - 1]);
      if r.None? {
        CountedFails(s, need, shares, need', shares + shares');
      } else {
        var s1 := r.value;
        CopyLowWorks(s, lo, lf, n - 1, mode, open);
        BuildingCountable(s1, open);
        BuildingCountable(s, open);
        EntryViewKept(s, s1, lo, n - 1, lf);
        LowViewAt(s, lo, n - 1);
        CopyLeafCounts(s1, lo, lf, n - 1, mode);
        CountedThen(s, s1, CopyLow(s, lo, lf, n, mode), need, shares, need', shares');
      }
    }
  }

  lemma BuildingCountable(s: State, open: set<int>)
    requires Building(s, open)
    ensures Tree(s) && UsedOk(s)
  {
  }

  /** Taking a frame for a table and filling it from a copy of another. */
  lemma TakeCounts(s: State, p: int, role: Role, r: Option<State>, need: nat, shares: nat)
    requires Fresh(s, p) && Counted(Take(s, p, role), r, need, shares)
    ensures Counted(s, r, 1 + need, shares)
  {
  }

  lemma CopyMidEntryCounts(s: State, mo: int, mf: int, h: nat, i: nat, j: nat, mode: Mode, open: set<int>)
    requires MidSetting(s, mo, mf, h, i, open) && j < NUM_PTE_ENTRIES && At(s, mf)[j] == ZERO_PTE
    ensures var low := ViewLow(s, At(s, mo)[j]);
      Counted(s, CopyMidEntry(s, mo, mf, h, i, j, mode), LowTreeNeed(mode, low), LowTreeShares(mode, low))
  {
    hide Building, Tree, UsedOk, LowView, CopyLow, LowNeed, LowShares;
    BuildingCountable(s, open);
    EntryFacts(s, mo, j);
    AllocSucceeds(s);
    var f := FirstFree(s.inUse, 0);
    if s.mem[mo][j].v && f.Some? {
      LowTreeCounts(s, mo, mf, h, i, j, mode, f.value, open);
    }
  }

  lemma LowTreeCounts(s: State, mo: int, mf: int, h: nat, i: nat, j: nat, mode: Mode, lf: nat, open: set<int>)
    requires MidSetting(s, mo, mf, h, i, open) && j < NUM_PTE_ENTRIES && s.mem[mo][j].v && Fresh(s, lf)
    ensures var lo := Target(s, s.mem[mo][j]);
      var low := LowView(s, lo);
      Counted(s, CopyLow(Take(s, lf, Low(h, i, j)), lo, lf, NUM_PTE_ENTRIES, mode),
              1 + LowNeed(mode, low, |low|), LowShares(mode, low, |low|))
  {
    hide Building, Tree, Grows, LowView, CopyLow, LowNeed, LowShares, Counted;
    BuildingTree(s, open);
    EntryFacts(s, mo, j);
    EntryFacts(s, mf, j);
    BlankFrame(s, lf);
    var lo := Target(s, s.mem[mo][j]);
    var low := LowView(s, lo);
    var s1 := Take(s, lf, Low(h, i, j));
    TakeKeeps(s, lf, Low(h, i, j), open);
    TakeGrows(s, lf, Low(h, i, j), mf);
    LowViewKept(s, s1, lo, mf);
    CopyLowCounts(s1, lo, lf, NUM_PTE_ENTRIES, mode, open + {lf});
    TakeCounts(s, lf, Low(h, i, j), CopyLow(s1, lo, lf, NUM_PTE_ENTRIES, mode),
               LowNeed(mode, low, |low|), LowShares(mode, low, |low|));
  }

  lemma {:induction false} CopyMidCounts(s: State, mo: int, mf: int, h: nat, i: nat, n: nat, mode: Mode, open: set<int>)
    requires MidSetting(s, mo, mf, h, i, open) && n <= NUM_PTE_ENTRIES && BlankFrom(s, mf, 0)
    ensures Counted(s, CopyMid(s, mo, mf, h, i, n, mode), MidNeed(mode, MidView(s, mo), n),
      MidShares(mode, MidView(s, mo), n))
  {
    hide Building, Tree, Grows, ViewLow, CopyMidEntry, LowTreeNeed, LowTreeShares, MidView, Counted;
    if n == 0 {
      CountedNothing(s);
    } else {
      CopyMidCounts(s, mo, mf, h, i, n - 1, mode, open);
      var r := CopyMid(s, mo, mf, h, i, n - 1, mode);
      var mid := MidView(s, mo);
      var need, shares := MidNeed(mode, mid, n - 1), MidShares(mode, mid, n - 1);
      var need', shares' := LowTreeNeed(mode, mid[n - 1]), LowTreeShares(mode, mid[n - 1]);
      if r.None? {
        CountedFails(s, need, shares, need', shares + shares');
      } else {
        var s1 := r.value;
        CopyMidWorks(s, mo, mf, h, i, n - 1, mode, open);
        BuildingTree(s, open);
        LowEntryViewKept(s, s1, mo, n - 1, mf);
        MidViewAt(s, mo, n - 1);
        CopyMidEntryCounts(s1, mo, mf, h, i, n - 1, mode, open);
        CountedThen(s, s1, CopyMid(s, mo, mf, h, i, n, mode), need, shares, need', shares');
      }
    }
  }

  lemma CopyRootEntryCounts(s: State, ro: int, rf: int, h: nat, i: nat, mode: Mode)
    requires RootSetting(s, ro, rf, h) && i < NUM_PTE_ENTRIES && At(s, rf)[i] == ZERO_PTE
    ensures var mid := ViewMid(s, At(s, ro)[i]);
      Counted(s, CopyRootEntry(s, ro, rf, h, i, mode), MidTreeNeed(mode, mid), MidTreeShares(mode, mid))
  {
    hide Building, Tree, UsedOk, MidView, CopyMid, MidNeed, MidShares;
    BuildingCountable(s, {});
    EntryFacts(s, ro, i);
    AllocSucceeds(s);
    var f := FirstFree(s.inUse, 0);
    if s.mem[ro][i].v && f.Some? {
      MidTreeCounts(s, ro, rf, h, i, mode, f.value);
    }
  }

  lemma MidTreeCounts(s: State, ro: int, rf: int, h: nat, i: nat, mode: Mode, mf: nat)
    requires RootSetting(s, ro, rf, h) && i < NUM_PTE_ENTRIES && s.mem[ro][i].v && Fresh(s, mf)
    ensures var mo := Target(s, s.mem[ro][i]);
      var mid := MidView(s, mo);
      Counted(s, CopyMid(Take(s, mf, Mid(h, i)), mo, mf, h, i, NUM_PTE_ENTRIES, mode),
              1 + MidNeed(mode, mid, |mid|), MidShares(mode, mid, |mid|))
  {
    hide Building, Tree, Grows, MidView, CopyMid, MidNeed, MidShares, Counted;
    BuildingTree(s, {});
    EntryFacts(s, ro, i);
    EntryFacts(s, rf, i);
    BlankFrame(s, mf);
    var mo := Target(s, s.mem[ro][i]);
    var mid := MidView(s, mo);
    var s1 := Take(s, mf, Mid(h, i));
    TakeKeeps(s, mf, Mid(h, i), {});
    TakeGrows(s, mf, Mid(h, i), rf);
    MidViewKept(s, s1, mo, rf);
    CopyMidCounts(s1, mo, mf, h, i, NUM_PTE_ENTRIES, mode, {} + {mf});
    TakeCounts(s, mf, Mid(h, i), CopyMid(s1, mo, mf, h, i, NUM_PTE_ENTRIES, mode),
               MidNeed(mode, mid, |mid|), MidShares(mode, mid, |mid|));
  }

  lemma {:induction false} CopyRootCounts(s: State, ro: int, rf: int, h: nat, n: nat, mode: Mode)
    requires RootSetting(s, ro, rf, h) && n <= NUM_PTE_ENTRIES && BlankFrom(s, rf, 0)
    ensures Counted(s, CopyRoot(s, ro, rf, h, n, mode),
                    SpaceNeed(mode, RootView(s, ro), n), SpaceShares(mode, RootView(s, ro), n))
  {
    hide Building, Tree, Grows, ViewMid, CopyRootEntry, MidTreeNeed, MidTreeShares, RootView, Counted;
    if n == 0 {
      CountedNothing(s);
    } else {
      CopyRootCounts(s, ro, rf, h, n - 1, mode);
      var r := CopyRoot(s, ro, rf, h, n - 1, mode);
      var space := RootView(s, ro);
      var need, shares := SpaceNeed(mode, space, n - 1), SpaceShares(mode, space, n - 1);
      var need', shares' := MidTreeNeed(mode, space[n - 1]), MidTreeShares(mode, space[n - 1]);
      if r.None? {
        CountedFails(s, need, shares, need', shares + shares');
      } else {
        var s1 := r.value;
        CopyRootWorks(s, ro, rf, h, n - 1, mode);
        BuildingTree(s, {});
        MidEntryViewKept(s, s1, ro, n - 1, rf);
        RootViewAt(s, ro, n - 1);
        CopyRootEntryCounts(s1, ro, rf, h, n - 1, mode);
        CountedThen(s, s1, CopyRoot(s, ro, rf, h, n, mode), need, shares, need', shares');
      }
    }
  }

  /** A fork succeeds exactly when the frames it needs are there; it takes exactly that many
      and adds exactly one reference per writable page it shares. */
  lemma ForkCounts(s: State, mode: Mode)
    requires Inv(s)
    ensures s.role[s.root].Root? && s.role[s.root].h < |s.roots|
    ensures var space := Spaces(s)[s.role[s.root].h];
      && (Fork(s, mode).Some? <==> s.used + ForkNeed(mode, space) <= MAX_PAGES)
      && Counted(s, Fork(s, mode), ForkNeed(mode, space), ForkShares(mode, space))
  {
    var f := FirstFree(s.inUse, 0);
    AllocSucceeds(s);
    hide Inv, RootView, CopyRoot, SpaceNeed, SpaceShares, UsedOk;
    CurrentRoot(s);
    if f.Some? {
      RootCounts(s, mode, f.value);
      if Fork(s, mode).Some? {
        ForkFits(s, mode);
      }
    }
  }

  lemma CurrentRoot(s: State)
    requires Inv(s)
    ensures s.inUse[s.root] && s.role[s.root].Root? && s.role[s.root].h < |s.roots|
    ensures Spaces(s)[s.role[s.root].h] == RootView(s, s.root)
  {
  }

  lemma ForkFits(s: State, mode: Mode)
    requires Inv(s) && Fork(s, mode).Some?
    ensures Fork(s, mode).value.used <= MAX_PAGES
  {
    hide Fork;
    ForkWorks(s, mode);
    AllocSucceeds(Fork(s, mode).value);
  }

  lemma RootCounts(s: State, mode: Mode, rf: nat)
    requires Inv(s) && Fresh(s, rf)
    ensures var space := RootView(s, s.root);
      Counted(s, CopyRoot(TakeRoot(s, rf), s.root, rf, |s.roots|, NUM_PTE_ENTRIES, mode),
              1 + SpaceNeed(mode, space, |space|), SpaceShares(mode, space, |space|))
  {
    var s1 := TakeRoot(s, rf);
    CurrentRoot(s);
    BuildingTree(s, {});
    BlankFrame(s, rf);
    hide Inv, Tree, RootView, CopyRoot, SpaceNeed, SpaceShares, Grows;
    TakeRootKeeps(s, rf, {});
    TakeRootGrows(s, rf);
    RootViewKept(s, s1, s.root, rf);
    CopyRootCounts(s1, s.root, rf, |s.roots|, NUM_PTE_ENTRIES, mode);
  }

  lemma TakeRootGrows(s: State, p: int)
    requires Fresh(s, p)
    ensures Grows(s, TakeRoot(s, p), p)
  {
  }
}
