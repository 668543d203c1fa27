/** What one elementary update of the machine (taking a frame, writing an entry) does to the
    well-formedness of the whole. */
module VmsSteps {
  import opened VmsPte
  import opened VmsMachine
  import opened FiniteSets
  import opened Wrappers

  /** A frame is blank and in use by nobody. */
  predicate Fresh(s: State, p: int) { Frame(p) && !s.inUse[p] }

  /** Allocation succeeds exactly when fewer than 256 frames are in use. */
  lemma AllocSucceeds(s: State)
    requires UsedOk(s)
    ensures 0 <= s.used <= 256
    ensures FirstFree(s.inUse, 0).Some? <==> s.used < 256
    ensures FirstFree(s.inUse, 0).Some? ==> Fresh(s, FirstFree(s.inUse, 0).value)
  {
    var all := Below(MAX_PAGES);
    BelowSize(MAX_PAGES);
    SubsetSize(FramesInUse(s), all);
    var f := FirstFree(s.inUse, 0);
    if f == None {
      assert forall p :: 0 <= p < MAX_PAGES ==> s.inUse[p];
      assert FramesInUse(s) == all;
    } else {
      assert FramesInUse(s) <= all - {f.value};
      assert f.value in all;
      SubsetSize(FramesInUse(s), all - {f.value});
    }
  }

  lemma TakeCountsUse(s: State, p: int, role: Role)
    requires UsedOk(s) && Fresh(s, p)
    ensures UsedOk(Take(s, p, role))
  {
    assert FramesInUse(Take(s, p, role)) == FramesInUse(s) + {p};
  }

  /** Leaf tables are untouched, apart from blank new ones. */
  ghost predicate SameLeaves(s: State, s': State) {
    && s'.base == s.base
    && (forall p :: 0 <= p < MAX_PAGES && s.role[p].Low? ==> s'.role[p].Low? && s'.mem[p] == s.mem[p])
    && (forall p :: 0 <= p < MAX_PAGES && !s.role[p].Low? && s'.role[p].Low? ==> s'.mem[p] == ZeroPage())
  }

  lemma SameLeavesKeep(s: State, s': State)
    requires SameLeaves(s, s') && SharingOk(s) && CountsOk(s) && s'.ref == s.ref
    ensures SharingOk(s') && CountsOk(s')
  {
    forall p, k ensures Leaf(s', p, k) <==> Leaf(s, p, k) {}
    assert forall p, k :: Leaf(s, p, k) ==> s'.mem[p][k] == s.mem[p][k];
    forall q | 0 <= q < MAX_PAGES ensures s'.ref[q] == Excess(|Customs(s', q)|) {
      assert forall p, k :: (p, k) in Customs(s', q) <==> (p, k) in Customs(s, q);
      assert Customs(s', q) == Customs(s, q);
    }
  }

  /** Tables survive when roles are only added and new tables are blank. */
  lemma TablesKept(s: State, s': State)
    requires TablesOk(s) && s'.base == s.base
    requires forall p :: 0 <= p < MAX_PAGES && !s.role[p].Unused? ==> s'.role[p] == s.role[p]
    requires forall p :: 0 <= p < MAX_PAGES && IsTable(s.role[p]) ==> s'.mem[p] == s.mem[p]
    requires forall p :: 0 <= p < MAX_PAGES && IsTable(s'.role[p]) && !IsTable(s.role[p]) ==> s'.mem[p] == ZeroPage()
    ensures TablesOk(s')
  {
    forall t, k | Frame(t) && IsTable(s'.role[t]) && 0 <= k < NUM_PTE_ENTRIES
      ensures EntryOk(s', s'.role[t], k, s'.mem[t][k])
    {
      if IsTable(s.role[t]) { assert EntryOk(s, s.role[t], k, s.mem[t][k]); }
    }
  }

  /** Taking a frame for data, or for a new, still detached and empty table. */
  lemma TakeKeeps(s: State, p: int, role: Role, open: set<int>)
    requires Building(s, open) && Fresh(s, p) && (role.Mid? || role.Low? || role.Data?)
    ensures Building(Take(s, p, role), if role.Data? then open else open + {p})
  {
    var s' := Take(s, p, role);
    TakeCountsUse(s, p, role);
    TablesKept(s, s');
    SameLeavesKeep(s, s');
    LinksKept(s, s', if role.Data? then open else open + {p}, open);
  }

  /** Links survive when every table keeps its role and its valid entries. */
  lemma LinksKept(s: State, s': State, open': set<int>, open: set<int>)
    requires LinksOk(s, open) && s'.base == s.base
    requires forall p :: 0 <= p < MAX_PAGES && p !in open' ==>
      p !in open && (s'.role[p] == s.role[p] || s'.role[p].Root? || s'.role[p].Data?)
    requires forall p, k :: 0 <= p < MAX_PAGES && 0 <= k < NUM_PTE_ENTRIES ==>
      (s.role[p].Root? || s.role[p].Mid?) && s.mem[p][k].v ==>
      s'.role[p] == s.role[p] && s'.mem[p][k] == s.mem[p][k]
    ensures LinksOk(s', open')
  {
    forall p | Frame(p) && p !in open' ensures Linked(s', p) {
      assert Linked(s, p);
      var r := s'.role[p];
      if r.Mid? {
        var t :| LinksTo(s, t, Root(r.h), r.i, p);
        assert LinksTo(s', t, Root(r.h), r.i, p);
      } else if r.Low? {
        var t :| LinksTo(s, t, Mid(r.h, r.i), r.j, p);
        assert LinksTo(s', t, Mid(r.h, r.i), r.j, p);
      }
    }
  }

  /** Taking a frame for the next root table. */
  function TakeRoot(s: State, p: nat): State
    requires Frame(p)
  {
    Take(s, p, Root(|s.roots|)).(roots := s.roots + [p])
  }

  lemma TakeRootKeeps(s: State, p: int, open: set<int>)
    requires Building(s, open) && Fresh(s, p)
    ensures Building(TakeRoot(s, p), open)
  {
    hide FreeFramesBlank, TablesOk, SharingOk, CountsOk, UsedOk, RootsOk, LinksOk;
    var s' := TakeRoot(s, p);
    TakeCountsUse(s, p, Root(|s.roots|));
    UsedDespiteRoots(Take(s, p, Root(|s.roots|)), s');
    TakeRootFrames(s, p);
    FreshFrame(s, p);
    TablesKept(s, s');
    SameLeavesKeep(s, s');
    LinksKept(s, s', open, open);
  }

  lemma FreshFrame(s: State, p: int)
    requires FreeFramesBlank(s) && Fresh(s, p)
    ensures s.role[p] == Unused && s.mem[p] == ZeroPage()
  {
  }

  lemma UsedDespiteRoots(s: State, s': State)
    requires UsedOk(s) && s' == s.(roots := s'.roots)
    ensures UsedOk(s')
  {
    assert FramesInUse(s') == FramesInUse(s);
  }

  lemma TakeRootFrames(s: State, p: int)
    requires FreeFramesBlank(s) && RootsOk(s) && Fresh(s, p)
    ensures FreeFramesBlank(TakeRoot(s, p)) && RootsOk(TakeRoot(s, p))
  {
  }

  /** Taking a frame for data and filling it. */
  function TakeData(s: State, p: nat, data: Page): State
    requires Frame(p)
  {
    SetPage(Take(s, p, Data), p, data)
  }

  /** Overwriting the contents of a data page. */
  lemma WriteDataKeeps(s: State, q: int, data: Page, open: set<int>)
    requires Building(s, open) && Frame(q) && s.role[q] == Data
    ensures Building(SetPage(s, q, data), open)
  {
    var s' := SetPage(s, q, data);
    TablesKept(s, s');
    SameLeavesKeep(s, s');
    LinksKept(s, s', open, open);
  }

  lemma TakeDataKeeps(s: State, p: int, data: Page, open: set<int>)
    requires Building(s, open) && Fresh(s, p)
    ensures Building(TakeData(s, p, data), open)
  {
    TakeKeeps(s, p, Data, open);
    WriteDataKeeps(Take(s, p, Data), p, data, open);
  }

  /** Hanging a detached table below its parent. */
  lemma LinkKeeps(s: State, t: int, k: nat, e: Pte, open: set<int>, child: int)
    requires Building(s, open) && Frame(t) && (s.role[t].Root? || s.role[t].Mid?) && k < NUM_PTE_ENTRIES
    requires !s.mem[t][k].v && EntryOk(s, s.role[t], k, e) && e.v && Target(s, e) == child
    ensures Building(Put(s, t, k, e), open - {child})
  {
    var s' := Put(s, t, k, e);
    PutTables(s, t, k, e);
    SameLeavesKeep(s, s');
    LinksKept(s, s', open, open);
    assert LinksTo(s', t, s.role[t], k, child);
    assert Linked(s', child);
  }

  lemma PutTables(s: State, t: int, k: nat, e: Pte)
    requires TablesOk(s) && Frame(t) && IsTable(s.role[t]) && k < NUM_PTE_ENTRIES && EntryOk(s, s.role[t], k, e)
    ensures TablesOk(Put(s, t, k, e))
  {
    var s' := Put(s, t, k, e);
    forall p, i | Frame(p) && IsTable(s'.role[p]) && 0 <= i < NUM_PTE_ENTRIES
      ensures EntryOk(s', s'.role[p], i, s'.mem[p][i])
    {
      if (p, i) != (t, k) { assert EntryOk(s, s.role[p], i, s.mem[p][i]); }
    }
  }

  // ---- Leaf entries -------------------------------------------------------------------

  lemma CustomsPut(s: State, p: int, k: int, e: Pte, q: int)
    requires Frame(p) && s.role[p].Low? && 0 <= k < NUM_PTE_ENTRIES
    ensures Customs(Put(s, p, k, e), q)
         == if e.v && e.c && Target(s, e) == q then Customs(s, q) + {(p, k)} else Customs(s, q) - {(p, k)}
  {
    var s' := Put(s, p, k, e);
    forall p', k' | (p', k') != (p, k) ensures (p', k') in Customs(s', q) <==> (p', k') in Customs(s, q) {
    }
  }

  /** The parts of the invariant that a leaf update cannot break. */
  lemma PutLeafFrame(s: State, p: int, k: int, e: Pte, open: set<int>)
    requires FreeFramesBlank(s) && TablesOk(s) && UsedOk(s) && RootsOk(s) && LinksOk(s, open)
    requires Frame(p) && s.role[p].Low? && 0 <= k < NUM_PTE_ENTRIES && EntryOk(s, s.role[p], k, e)
    ensures var s' := Put(s, p, k, e);
      FreeFramesBlank(s') && TablesOk(s') && UsedOk(s') && RootsOk(s') && LinksOk(s', open)
  {
    var s' := Put(s, p, k, e);
    PutTables(s, p, k, e);
    LinksKept(s, s', open, open);
  }

  lemma AddRefFrame(s: State, q: int, d: int, open: set<int>)
    requires FreeFramesBlank(s) && TablesOk(s) && UsedOk(s) && RootsOk(s) && LinksOk(s, open)
    requires RoleAt(s, q) == Data
    ensures var s' := AddRef(s, q, d);
      FreeFramesBlank(s') && TablesOk(s') && UsedOk(s') && RootsOk(s') && LinksOk(s', open)
  {
    var s' := AddRef(s, q, d);
    TablesKept(s, s');
    assert FramesInUse(s') == FramesInUse(s);
    LinksKept(s, s', open, open);
  }

  /** A fresh private page behind a blank leaf entry. */
  lemma PutPrivate(s: State, p: int, k: int, e: Pte, open: set<int>)
    requires Building(s, open) && Frame(p) && s.role[p].Low? && 0 <= k < NUM_PTE_ENTRIES
    requires !s.mem[p][k].v && e.v && EntryOk(s, s.role[p], k, e)
    requires Unmapped(s, Target(s, e)) && s.ref[Target(s, e)] == 0
    ensures Building(Put(s, p, k, e), open)
  {
    PutLeafFrame(s, p, k, e, open);
    PrivateSharing(s, p, k, e);
    PrivateCounts(s, p, k, e);
  }

  lemma PrivateSharing(s: State, p: int, k: int, e: Pte)
    requires SharingOk(s) && Frame(p) && s.role[p].Low? && 0 <= k < NUM_PTE_ENTRIES && e.v
    requires Unmapped(s, Target(s, e))
    ensures SharingOk(Put(s, p, k, e))
  {
    var s' := Put(s, p, k, e);
    forall t, i, t', i' | Leaf(s', t, i) && Leaf(s', t', i') && LeafTarget(s', t, i) == LeafTarget(s', t', i')
      ensures (s'.mem[t][i].w ==> t == t' && i == i') && (s'.mem[t][i].c ==> s'.mem[t'][i'].c)
    {
      hide SharingOk, Unmapped;
      OtherLeaf(s, p, k, e, t, i);
      OtherLeaf(s, p, k, e, t', i');
      if (t, i) != (p, k) && (t', i') != (p, k) { SharingAt(s, t, i, t', i'); }
    }
  }

  lemma SharingAt(s: State, p: int, k: int, p': int, k': int)
    requires SharingOk(s) && Leaf(s, p, k) && Leaf(s, p', k') && LeafTarget(s, p, k) == LeafTarget(s, p', k')
    ensures (s.mem[p][k].w ==> p == p' && k == k') && (s.mem[p][k].c ==> s.mem[p'][k'].c)
  {
  }

  /** A leaf other than the one written is as before, and does not map the new page. */
  lemma OtherLeaf(s: State, p: int, k: int, e: Pte, t: int, i: int)
    requires Frame(p) && s.role[p].Low? && 0 <= k < NUM_PTE_ENTRIES && e.v && Unmapped(s, Target(s, e))
    requires Leaf(Put(s, p, k, e), t, i)
    ensures (t, i) == (p, k) ==> Put(s, p, k, e).mem[t][i] == e
    ensures (t, i) != (p, k) ==>
      Leaf(s, t, i) && Put(s, p, k, e).mem[t][i] == s.mem[t][i] && LeafTarget(s, t, i) != Target(s, e)
  {
  }

  lemma PrivateCounts(s: State, p: int, k: int, e: Pte)
    requires CountsOk(s) && Frame(p) && s.role[p].Low? && 0 <= k < NUM_PTE_ENTRIES && e.v && !s.mem[p][k].v
    requires Frame(Target(s, e)) && Unmapped(s, Target(s, e)) && s.ref[Target(s, e)] == 0
    ensures CountsOk(Put(s, p, k, e))
  {
    var s' := Put(s, p, k, e);
    forall q | 0 <= q < MAX_PAGES ensures s'.ref[q] == Excess(|Customs(s', q)|) {
      CustomsPut(s, p, k, e, q);
      assert (p, k) !in Customs(s, q);
      if q == Target(s, e) { assert Customs(s, q) == {}; }
    }
  }

  ghost predicate Unmapped(s: State, q: int) {
    forall t, i :: Leaf(s, t, i) ==> LeafTarget(s, t, i) != q
  }

  /** A second read-only mapping of a page. */
  lemma PutReadOnly(s: State, p: int, k: int, p0: int, k0: int, open: set<int>)
    requires Building(s, open) && Frame(p) && s.role[p].Low? && 0 <= k < NUM_PTE_ENTRIES && !s.mem[p][k].v
    requires Leaf(s, p0, k0) && !s.mem[p0][k0].w && !s.mem[p0][k0].c
    ensures Building(Put(s, p, k, s.mem[p0][k0]), open)
  {
    var e := s.mem[p0][k0];
    assert EntryOk(s, s.role[p0], k0, e);
    PutLeafFrame(s, p, k, e, open);
    ReadOnlySharing(s, p, k, p0, k0);
    ReadOnlyCounts(s, p, k, e);
  }

  lemma ReadOnlySharing(s: State, p: int, k: int, p0: int, k0: int)
    requires SharingOk(s) && Frame(p) && s.role[p].Low? && 0 <= k < NUM_PTE_ENTRIES && !s.mem[p][k].v
    requires Leaf(s, p0, k0) && !s.mem[p0][k0].w && !s.mem[p0][k0].c
    ensures SharingOk(Put(s, p, k, s.mem[p0][k0]))
  {
    var e := s.mem[p0][k0];
    var s' := Put(s, p, k, e);
    forall t, i, t', i' | Leaf(s', t, i) && Leaf(s', t', i') && LeafTarget(s', t, i) == LeafTarget(s', t', i')
      ensures (s'.mem[t][i].w ==> t == t' && i == i') && (s'.mem[t][i].c ==> s'.mem[t'][i'].c)
    {
      hide SharingOk;
      if (t, i) != (p, k) {
        if (t', i') == (p, k) { SharingAt(s, t, i, p0, k0); } else { SharingAt(s, t, i, t', i'); }
      }
    }
  }

  lemma ReadOnlyCounts(s: State, p: int, k: int, e: Pte)
    requires CountsOk(s) && Frame(p) && s.role[p].Low? && 0 <= k < NUM_PTE_ENTRIES && !s.mem[p][k].v && !e.c
    ensures CountsOk(Put(s, p, k, e))
  {
    var s' := Put(s, p, k, e);
    forall q | 0 <= q < MAX_PAGES ensures s'.ref[q] == Excess(|Customs(s', q)|) {
      CustomsPut(s, p, k, e, q);
      assert (p, k) !in Customs(s, q);
      assert Customs(s', q) == Customs(s, q);
    }
  }

  function Lazy(e: Pte): Pte { e.(w := false, c := true) }

  /** Sharing a writable or already shared page with one more leaf entry. */
  function Share(s: State, p0: int, k0: nat, p: int, k: nat): State
    requires k0 < NUM_PTE_ENTRIES && k < NUM_PTE_ENTRIES
  {
    var e := Lazy(At(s, p0)[k0]);
    AddRef(Put(Put(s, p0, k0, e), p, k, e), Target(s, e), 1)
  }

  lemma ShareCustoms(s: State, p0: int, k0: int, p: int, k: int, q: int)
    requires Frame(p) && s.role[p].Low? && 0 <= k < NUM_PTE_ENTRIES && !s.mem[p][k].v
    requires Leaf(s, p0, k0)
    ensures Customs(Share(s, p0, k0, p, k), q)
         == if LeafTarget(s, p0, k0) == q then Customs(s, q) + {(p0, k0), (p, k)} else Customs(s, q)
  {
    var e := Lazy(s.mem[p0][k0]);
    var s1 := Put(s, p0, k0, e);
    var s2 := Put(s1, p, k, e);
    CustomsPut(s, p0, k0, e, q);
    CustomsPut(s1, p, k, e, q);
    assert Customs(Share(s, p0, k0, p, k), q) == Customs(s2, q);
    assert (p, k) !in Customs(s, q);
  }

  lemma ShareFrame(s: State, p0: int, k0: int, p: int, k: int, open: set<int>)
    requires FreeFramesBlank(s) && TablesOk(s) && UsedOk(s) && RootsOk(s) && LinksOk(s, open)
    requires Frame(p) && s.role[p].Low? && 0 <= k < NUM_PTE_ENTRIES && Leaf(s, p0, k0)
    ensures var s' := Share(s, p0, k0, p, k);
      FreeFramesBlank(s') && TablesOk(s') && UsedOk(s') && RootsOk(s') && LinksOk(s', open)
  {
    var e := Lazy(s.mem[p0][k0]);
    assert EntryOk(s, s.role[p0], k0, s.mem[p0][k0]);
    PutLeafFrame(s, p0, k0, e, open);
    PutLeafFrame(Put(s, p0, k0, e), p, k, e, open);
    AddRefFrame(Put(Put(s, p0, k0, e), p, k, e), Target(s, e), 1, open);
  }

  lemma ShareCounts(s: State, p0: int, k0: int, p: int, k: int)
    requires TablesOk(s) && SharingOk(s) && CountsOk(s)
    requires Frame(p) && s.role[p].Low? && 0 <= k < NUM_PTE_ENTRIES && !s.mem[p][k].v
    requires Leaf(s, p0, k0) && (s.mem[p0][k0].w || s.mem[p0][k0].c)
    ensures CountsOk(Share(s, p0, k0, p, k))
  {
    hide TablesOk, SharingOk, Customs, Share, Excess;
    var s' := Share(s, p0, k0, p, k);
    OneMoreCustom(s, p0, k0, p, k);
    forall q | 0 <= q < MAX_PAGES ensures s'.ref[q] == Excess(|Customs(s', q)|) {
      ShareCustoms(s, p0, k0, p, k, q);
      ShareRef(s, p0, k0, p, k, q);
    }
  }

  lemma ShareRef(s: State, p0: int, k0: int, p: int, k: int, q: int)
    requires TablesOk(s) && Frame(p) && 0 <= k < NUM_PTE_ENTRIES && Leaf(s, p0, k0) && Frame(q)
    ensures Share(s, p0, k0, p, k).ref[q] == s.ref[q] + if q == LeafTarget(s, p0, k0) then 1 else 0
  {
    assert EntryOk(s, s.role[p0], k0, s.mem[p0][k0]);
  }

  /** Sharing adds one to the custom mappings beyond the first. */
  lemma OneMoreCustom(s: State, p0: int, k0: int, p: int, k: int)
    requires TablesOk(s) && SharingOk(s) && Leaf(s, p0, k0) && (s.mem[p0][k0].w || s.mem[p0][k0].c)
    requires Frame(p) && s.role[p].Low? && 0 <= k < NUM_PTE_ENTRIES && !s.mem[p][k].v
    ensures var before := Customs(s, LeafTarget(s, p0, k0));
      Excess(|before + {(p0, k0), (p, k)}|) == Excess(|before|) + 1
  {
    var before := Customs(s, LeafTarget(s, p0, k0));
    assert (p, k) !in before && (p0, k0) != (p, k);
    if s.mem[p0][k0].w {
      CustomsOfWritable(s, p0, k0);
      assert before + {(p0, k0), (p, k)} == {(p0, k0), (p, k)};
    } else {
      assert (p0, k0) in before;
      assert before + {(p0, k0), (p, k)} == before + {(p, k)};
    }
  }

  lemma ShareKeeps(s: State, p0: int, k0: int, p: int, k: int, open: set<int>)
    requires Building(s, open) && Frame(p) && s.role[p].Low? && 0 <= k < NUM_PTE_ENTRIES && !s.mem[p][k].v
    requires Leaf(s, p0, k0) && (s.mem[p0][k0].w || s.mem[p0][k0].c)
    ensures Building(Share(s, p0, k0, p, k), open)
  {
    ShareFrame(s, p0, k0, p, k, open);
    ShareCounts(s, p0, k0, p, k);
    SharingAfterShare(s, p0, k0, p, k);
  }

  /** A page behind a writable entry has no custom mapping. */
  lemma CustomsOfWritable(s: State, p: int, k: int)
    requires TablesOk(s) && SharingOk(s) && Leaf(s, p, k) && s.mem[p][k].w
    ensures Customs(s, LeafTarget(s, p, k)) == {}
  {
    forall t, i | Leaf(s, t, i) && LeafTarget(s, t, i) == LeafTarget(s, p, k) ensures !s.mem[t][i].c {
      assert EntryOk(s, s.role[p], k, s.mem[p][k]);
    }
  }

  lemma SharingAfterShare(s: State, p0: int, k0: int, p: int, k: int)
    requires SharingOk(s) && Frame(p) && s.role[p].Low? && 0 <= k < NUM_PTE_ENTRIES && !s.mem[p][k].v
    requires Leaf(s, p0, k0) && (s.mem[p0][k0].w || s.mem[p0][k0].c)
    ensures SharingOk(Share(s, p0, k0, p, k))
  {
    var s' := Share(s, p0, k0, p, k);
    forall t, i, t', i' | Leaf(s', t, i) && Leaf(s', t', i') && LeafTarget(s', t, i) == LeafTarget(s', t', i')
      ensures (s'.mem[t][i].w ==> t == t' && i == i') && (s'.mem[t][i].c ==> s'.mem[t'][i'].c)
    {
      hide SharingOk, Share;
      SharedLeaf(s, p0, k0, p, k, t, i);
      SharedLeaf(s, p0, k0, p, k, t', i');
      var here, there := (t, i) == (p, k) || (t, i) == (p0, k0), (t', i') == (p, k) || (t', i') == (p0, k0);
      if here && !there {
        SharingAt(s, p0, k0, t', i');
      } else if !here && there {
        SharingAt(s, p0, k0, t, i);
        SharingAt(s, t, i, p0, k0);
      } else if !here && !there {
        SharingAt(s, t, i, t', i');
      }
    }
  }

  /** A leaf after sharing: the two shared entries are custom ones, all others are as before. */
  lemma SharedLeaf(s: State, p0: int, k0: int, p: int, k: int, t: int, i: int)
    requires Frame(p) && s.role[p].Low? && 0 <= k < NUM_PTE_ENTRIES && Leaf(s, p0, k0)
    requires Leaf(Share(s, p0, k0, p, k), t, i)
    ensures var s' := Share(s, p0, k0, p, k);
      && LeafTarget(s', t, i) == Target(s, s'.mem[t][i])
      && if (t, i) == (p, k) || (t, i) == (p0, k0) then s'.mem[t][i] == Lazy(s.mem[p0][k0])
         else Leaf(s, t, i) && s'.mem[t][i] == s.mem[t][i]
  {
  }

  lemma TakenIsUnmapped(s: State, n: int, data: Page)
    requires FreeFramesBlank(s) && TablesOk(s) && Fresh(s, n)
    ensures Unmapped(TakeData(s, n, data), n)
  {
    var s1 := TakeData(s, n, data);
    forall t, i | Leaf(s1, t, i) ensures LeafTarget(s1, t, i) != n {
      assert Leaf(s, t, i) && s1.mem[t][i] == s.mem[t][i];
      assert EntryOk(s, s.role[t], i, s.mem[t][i]);
    }
  }
}
