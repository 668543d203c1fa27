/** The ideal machine, in which every root owns a private memory and a fork duplicates it,
    and the proof that single operations of the real machine behave like it. */
module VmsIdeal {
  import opened VmsAddress
  import opened VmsBytes
  import opened VmsMachine
  import opened VmsSteps
  import opened VmsSpace
  import opened VmsFault
  import opened VmsCount
  import opened VmsMmu
  import opened Wrappers

  /** `cur` is the handle of the current root. */
  datatype Ideal = Ideal(spaces: seq<Space>, cur: nat)

  datatype IdealOutcome = IdealReturned(m: Ideal, value: bv32) | IdealFatal

  function IdealRead(m: Ideal, a: Address): IdealOutcome
    requires m.cur < |m.spaces| && Accessible(a)
  {
    var page := Lookup(m.spaces[m.cur], a);
    if page.Some? && page.value.r then IdealReturned(m, ReadInt(page.value.data, a.offset)) else IdealFatal
  }

  function IdealWrite(m: Ideal, a: Address, v: bv32): IdealOutcome
    requires m.cur < |m.spaces| && Accessible(a)
  {
    var space := m.spaces[m.cur];
    var page := Lookup(space, a);
    if page.Some? && page.value.w then
      var data: Page := WriteInt(page.value.data, a.offset, v);
      IdealReturned(m.(spaces := m.spaces[m.cur := SetMapping(space, a, Some(page.value.(data := data)))]), v)
    else IdealFatal
  }

  function IdealFork(m: Ideal): Ideal
    requires m.cur < |m.spaces|
  {
    m.(spaces := m.spaces + [m.spaces[m.cur]])
  }

  // ---- The real machine, seen as an ideal one -----------------------------------------

  function Handle(s: State): nat {
    if s.role[s.root].Root? then s.role[s.root].h else 0
  }

  function View(s: State): Ideal { Ideal(Spaces(s), Handle(s)) }

  lemma ViewOk(s: State)
    requires Inv(s)
    ensures Handle(s) < |s.roots| && s.roots[Handle(s)] == s.root
    ensures Spaces(s)[Handle(s)] == RootView(s, s.root)
  {
  }

  // ---- The handler is invisible -------------------------------------------------------

  lemma SamePageSameSpaces(s: State, s': State, a: Address)
    requires Inv(s) && a.Ok() && LeafTable(s, s.root, a).Some? && s'.root == s.root
    requires var p := LeafTable(s, s.root, a).value;
      && ChangesLeaf(s, s', p, a.i0) && ViewLeaf(s', At(s', p)[a.i0]) == ViewLeaf(s, At(s, p)[a.i0])
    ensures Spaces(s') == Spaces(s)
  {
    ViewOk(s);
    LookupIsDescent(s, s.root, a);
    SpacesAfterChange(s, s', Handle(s), a);
    SetSameMapping(Spaces(s)[Handle(s)], a);
  }

  lemma SetSameMapping(space: Space, a: Address)
    requires HasPath(space, a)
    ensures SetMapping(space, a, Lookup(space, a)) == space
  {
    var mid := space[a.i2].value;
    var low := mid[a.i1].value;
    assert low[a.i0 := low[a.i0]] == low;
    assert mid[a.i1 := Some(low)] == mid;
    assert space[a.i2 := Some(mid)] == space;
  }

  ghost predicate Invisible(s: State, s': State, p: int, k: nat)
    requires k < NUM_PTE_ENTRIES
  {
    && ChangesLeaf(s, s', p, k) && ViewLeaf(s', At(s', p)[k]) == ViewLeaf(s, At(s, p)[k])
    && s'.root == s.root && RoleAt(s', s.root) == RoleAt(s, s.root) && RoleAt(s', p) == RoleAt(s, p)
  }

  lemma FaultIsInvisible(s: State, p: int, k: nat)
    requires Inv(s) && RoleAt(s, p).Low? && k < NUM_PTE_ENTRIES && Fault(s, p, k).Some?
    ensures Invisible(s, Fault(s, p, k).value, p, k)
  {
    InvFacts(s);
    hide Inv, Tree, Invisible;
    EntryFacts(s, p, k);
    var e := s.mem[p][k];
    if !e.c {
      NothingIsInvisible(s, p, k);
    } else if RefAt(s, Target(s, e)) == 0 {
      FlagsAreInvisible(s, p, k);
    } else {
      BreakShareIsInvisible(s, p, k, FirstFree(s.inUse, 0).value);
    }
  }

  lemma NothingIsInvisible(s: State, p: int, k: nat)
    requires k < NUM_PTE_ENTRIES
    ensures Invisible(s, s, p, k)
  {
  }

  lemma FlagsAreInvisible(s: State, p: int, k: nat)
    requires Tree(s) && RoleAt(s, p).Low? && k < NUM_PTE_ENTRIES && s.mem[p][k].c
    ensures Invisible(s, Put(s, p, k, Writable(s.mem[p][k])), p, k)
  {
    var s' := Put(s, p, k, Writable(s.mem[p][k]));
    forall t, i | 0 <= t < MAX_PAGES && s.role[t].Low? && 0 <= i < NUM_PTE_ENTRIES && (t, i) != (p, k)
      ensures ViewLeaf(s', s'.mem[t][i]) == ViewLeaf(s, s.mem[t][i])
    {
      assert s'.mem[t][i] == s.mem[t][i];
      EntryFacts(s, t, i);
    }
    EntryFacts(s, p, k);
  }

  lemma BreakShareIsInvisible(s: State, p: int, k: nat, n: nat)
    requires Tree(s) && RoleAt(s, p).Low? && k < NUM_PTE_ENTRIES && s.mem[p][k].c && Fresh(s, n)
    requires s.role[s.root].Root?
    ensures Invisible(s, BreakShare(s, p, k, n), p, k)
  {
    hide Tree, ViewLeaf;
    var s' := BreakShare(s, p, k, n);
    EntryFacts(s, p, k);
    RoleMeansUse(s, s.root);
    forall t, i | 0 <= t < MAX_PAGES && s.role[t].Low? && 0 <= i < NUM_PTE_ENTRIES && (t, i) != (p, k)
      ensures ViewLeaf(s', s'.mem[t][i]) == ViewLeaf(s, s.mem[t][i])
    {
      BreakShareElsewhere(s, p, k, n, t, i);
    }
    forall t | 0 <= t < MAX_PAGES && (s.role[t].Root? || s.role[t].Mid?) ensures s'.mem[t] == s.mem[t] {
      RoleMeansUse(s, t);
    }
    BreakShareHere(s, p, k, n);
  }

  lemma BreakShareElsewhere(s: State, p: int, k: nat, n: nat, t: int, i: nat)
    requires Tree(s) && RoleAt(s, p).Low? && k < NUM_PTE_ENTRIES && Fresh(s, n)
    requires RoleAt(s, t).Low? && i < NUM_PTE_ENTRIES && (t, i) != (p, k)
    ensures var s' := BreakShare(s, p, k, n);
      s'.mem[t][i] == s.mem[t][i] && ViewLeaf(s', s'.mem[t][i]) == ViewLeaf(s, s.mem[t][i])
  {
    hide Tree;
    EntryFacts(s, p, k);
    EntryFacts(s, t, i);
    MappedIsNoTable(s, t, i, p);
  }

  lemma MappedIsNoTable(s: State, t: int, i: nat, p: int)
    requires Tree(s) && RoleAt(s, t).Low? && i < NUM_PTE_ENTRIES && RoleAt(s, p).Low?
    ensures s.mem[t][i].v ==> Target(s, s.mem[t][i]) != p
  {
    EntryFacts(s, t, i);
  }

  lemma BreakShareHere(s: State, p: int, k: nat, n: nat)
    requires Tree(s) && RoleAt(s, p).Low? && k < NUM_PTE_ENTRIES && s.mem[p][k].c && Fresh(s, n)
    ensures ViewLeaf(BreakShare(s, p, k, n), BreakShare(s, p, k, n).mem[p][k]) == ViewLeaf(s, s.mem[p][k])
  {
    hide Tree;
    EntryFacts(s, p, k);
  }

  // ---- Reads and writes ---------------------------------------------------------------

  /** The walk from the current root: its result shows the same memory and keeps the
      invariant; it fails only where the ideal machine has no accessible page. */
  lemma WalkWorks(s: State, a: Address)
    requires Inv(s) && a.Ok()
    ensures var page := Lookup(Spaces(s)[Handle(s)], a);
      match Mmu(s, a, s.root, 2, false)
      case Found(s', p) =>
        && Inv(s') && View(s') == View(s) && s'.root == s.root && Claims(s') == Claims(s) && s'.used >= s.used
        && LeafTable(s', s.root, a) == Some(p) && RoleAt(s', p).Low?
        && page.Some? && ViewLeaf(s', At(s', p)[a.i0]) == page
      case FatalWalk => page.None? || (!page.value.r && !page.value.w)
      case NoMemoryWalk => s.used == MAX_PAGES && RefSum(s) > 0
  {
    ViewOk(s);
    MmuIsDescent(s, a);
    LookupIsDescent(s, s.root, a);
    InvFacts(s);
    hide Inv, Tree;
    var t := LeafTable(s, s.root, a);
    if t.Some? {
      LeafTableRole(s, s.root, a);
      EntryFacts(s, t.value, a.i0);
      var e := s.mem[t.value][a.i0];
      if !(e.v && (e.r || e.w)) && e.c {
        HandlerWorks(s, a, t.value);
      }
    }
  }

  /** A call of the handler for a leaf entry on the current path. */
  lemma HandlerWorks(s: State, a: Address, p: int)
    requires Inv(s) && a.Ok() && LeafTable(s, s.root, a) == Some(p)
    ensures RoleAt(s, p).Low?
    ensures match Fault(s, p, a.i0)
      case None => s.used == MAX_PAGES && RefSum(s) > 0 && s.mem[p][a.i0].c
      case Some(s') =>
        && Inv(s') && View(s') == View(s) && s'.root == s.root && Claims(s') == Claims(s) && s'.used >= s.used
        && LeafTable(s', s.root, a) == Some(p) && RoleAt(s', p).Low?
        && ViewLeaf(s', At(s', p)[a.i0]) == ViewLeaf(s, At(s, p)[a.i0])
  {
    InvFacts(s);
    LeafTableRole(s, s.root, a);
    FaultKeepsInv(s, p, a.i0);
    FaultConserves(s, p, a.i0);
    SumOfRefs(s);
    FaultTakesFrames(s, p, a.i0);
    hide Inv, Tree, Claims, RefSum, Fault, LeafTable, ViewLeaf, Invisible;
    EntryFacts(s, p, a.i0);
    if Fault(s, p, a.i0).Some? {
      var s' := Fault(s, p, a.i0).value;
      FaultIsInvisible(s, p, a.i0);
      InvisibleOnPath(s, s', a);
    }
  }

  lemma InvisibleOnPath(s: State, s': State, a: Address)
    requires Inv(s) && a.Ok() && LeafTable(s, s.root, a).Some?
    requires Invisible(s, s', LeafTable(s, s.root, a).value, a.i0)
    ensures var p := LeafTable(s, s.root, a).value;
      && View(s') == View(s) && s'.root == s.root && LeafTable(s', s.root, a) == Some(p)
        && RoleAt(s', p) == RoleAt(s, p)
      && ViewLeaf(s', At(s', p)[a.i0]) == ViewLeaf(s, At(s, p)[a.i0])
  {
    InvFacts(s);
    hide Inv, Tree, LeafTable, ViewLeaf, ChangesLeaf;
    SamePageSameSpaces(s, s', a);
    DescentKept(s, s', a);
  }

  lemma SumOfRefs(s: State)
    requires Inv(s)
    ensures forall q :: 0 <= q < MAX_PAGES ==> 0 <= s.ref[q] <= RefSum(s)
  {
    RefsNonNegative(s);
  }

  lemma DescentKept(s: State, s': State, a: Address)
    requires Tree(s) && RoleAt(s, s.root).Root? && a.Ok() && LeafTable(s, s.root, a).Some?
    requires ChangesLeaf(s, s', LeafTable(s, s.root, a).value, a.i0)
    ensures LeafTable(s', s.root, a) == LeafTable(s, s.root, a)
  {
    EntryFacts(s, s.root, a.i2);
    EntryFacts(s, Target(s, s.mem[s.root][a.i2]), a.i1);
  }

  lemma FaultTakesFrames(s: State, p: int, k: nat)
    requires k < NUM_PTE_ENTRIES
    ensures Fault(s, p, k).Some? ==> Fault(s, p, k).value.used >= s.used
  {
  }

  /** A read at an entry that shows a readable page is the ideal read. */
  lemma LoadIsIdealRead(s: State, a: Address, p: int)
    requires Inv(s) && Accessible(a) && LeafTable(s, s.root, a) == Some(p)
    ensures View(s).cur < |View(s).spaces|
    ensures var e := At(s, p)[a.i0];
      IdealRead(View(s), a) == if e.v && e.r then IdealReturned(View(s), Load(s, p, a)) else IdealFatal
  {
    ViewOk(s);
    LookupIsDescent(s, s.root, a);
    hide Inv, ReadInt;
  }

  /** A read behaves like a read of the ideal machine, or runs out of memory. */
  lemma ReadRefines(s: State, a: Address)
    requires Inv(s) && Accessible(a)
    ensures View(s).cur < |View(s).spaces|
    ensures match Read(s, a)
      case Returned(s', v) =>
        && Inv(s') && s'.root == s.root && Claims(s') == Claims(s) && s'.used >= s.used
        && IdealRead(View(s), a) == IdealReturned(View(s'), v)
      case Fatal => IdealRead(View(s), a) == IdealFatal
      case OutOfMemory => s.used <= MAX_PAGES && Claims(s) > MAX_PAGES
  {
    ViewOk(s);
    WalkWorks(s, a);
    FramesBounded(s);
    var w := Mmu(s, a, s.root, 2, false);
    if w.Found? {
      ReadAfterWalk(w.s, a, w.table);
    }
  }

  lemma ReadAfterWalk(s: State, a: Address, p: int)
    requires Inv(s) && Accessible(a) && LeafTable(s, s.root, a) == Some(p) && At(s, p)[a.i0].v
    ensures View(s).cur < |View(s).spaces|
    ensures At(s, p)[a.i0].r ==> IdealRead(View(s), a) == IdealReturned(View(s), Load(s, p, a))
    ensures !At(s, p)[a.i0].r ==>
      match Fault(s, p, a.i0)
      case None => Claims(s) > MAX_PAGES
      case Some(s2) => !At(s2, p)[a.i0].r && IdealRead(View(s), a) == IdealFatal
  {
    hide Inv, ReadInt, View, IdealRead, Load, LeafTable, Fault;
    LoadIsIdealRead(s, a, p);
    HandlerWorks(s, a, p);
  }

  lemma FramesBounded(s: State)
    requires Inv(s)
    ensures s.used <= MAX_PAGES
  {
    AllocSucceeds(s);
  }

  /** A store through a writable entry is seen at that one entry only. */
  lemma StoreChangesLeaf(s: State, a: Address, p: int, v: bv32)
    requires Tree(s) && SharingOk(s) && Accessible(a) && RoleAt(s, p).Low? && s.mem[p][a.i0].v && s.mem[p][a.i0].w
    ensures var s' := Store(s, p, a, v);
      && ChangesLeaf(s, s', p, a.i0) && s'.root == s.root && s'.role == s.role
      && (var data: Page := WriteInt(At(s, Target(s, s.mem[p][a.i0])), a.offset, v);
          ViewLeaf(s', At(s', p)[a.i0]) == Some(ViewLeaf(s, At(s, p)[a.i0]).value.(data := data)))
  {
    hide WriteInt;
    var q := Target(s, s.mem[p][a.i0]);
    EntryFacts(s, p, a.i0);
    var s' := Store(s, p, a, v);
    forall t, i | 0 <= t < MAX_PAGES && s.role[t].Low? && 0 <= i < NUM_PTE_ENTRIES && (t, i) != (p, a.i0)
      ensures ViewLeaf(s', s'.mem[t][i]) == ViewLeaf(s, s.mem[t][i])
    {
      EntryFacts(s, t, i);
      if s.mem[t][i].v {
        assert Leaf(s, t, i) && Leaf(s, p, a.i0);
        assert LeafTarget(s, t, i) != LeafTarget(s, p, a.i0);
      }
    }
  }

  lemma StoreKeepsInv(s: State, a: Address, p: int, v: bv32)
    requires Inv(s) && Accessible(a) && RoleAt(s, p).Low? && s.mem[p][a.i0].v
    ensures var s' := Store(s, p, a, v);
      Inv(s') && s'.root == s.root && s'.used == s.used && Claims(s') == Claims(s) && Handle(s') == Handle(s)
  {
    InvFacts(s);
    hide Tree, WriteInt;
    EntryFacts(s, p, a.i0);
    var q := Target(s, s.mem[p][a.i0]);
    WriteDataKeeps(s, q, WriteInt(At(s, q), a.offset, v), {});
  }

  lemma StoreChangesSpace(s: State, a: Address, p: int, v: bv32)
    requires Inv(s) && Accessible(a) && LeafTable(s, s.root, a) == Some(p)
    requires At(s, p)[a.i0].v && At(s, p)[a.i0].w
    ensures RoleAt(s, p).Low?
    ensures View(s).cur < |View(s).spaces|
    ensures var space := Spaces(s)[Handle(s)];
      && HasPath(space, a) && Lookup(space, a) == ViewLeaf(s, At(s, p)[a.i0])
      && (var data: Page := WriteInt(At(s, Target(s, At(s, p)[a.i0])), a.offset, v);
          Spaces(Store(s, p, a, v))
          == Spaces(s)[Handle(s) := SetMapping(space, a, Some(Lookup(space, a).value.(data := data)))])
  {
    InvFacts(s);
    ViewOk(s);
    SharingOfInv(s);
    hide Inv, Tree, SharingOk, WriteInt, LeafTable, ChangesLeaf, Store, SetMapping, HasPath, Lookup;
    LeafTableRole(s, s.root, a);
    LookupIsDescent(s, s.root, a);
    StoreChangesLeaf(s, a, p, v);
    SpacesAfterChange(s, Store(s, p, a, v), Handle(s), a);
  }

  lemma SharingOfInv(s: State)
    requires Inv(s)
    ensures SharingOk(s)
  {
  }

  lemma StoreIsIdealWrite(s: State, a: Address, p: int, v: bv32)
    requires Inv(s) && Accessible(a) && LeafTable(s, s.root, a) == Some(p)
    requires At(s, p)[a.i0].v && At(s, p)[a.i0].w
    ensures var s' := Store(s, p, a, v);
      && Inv(s') && s'.root == s.root && Claims(s') == Claims(s) && s'.used == s.used
      && View(s).cur < |View(s).spaces|
      && IdealWrite(View(s), a, v) == IdealReturned(View(s'), v)
  {
    hide Inv, WriteInt, LeafTable, Store, SetMapping, HasPath, Lookup, Spaces, Handle, Claims;
    StoreChangesSpace(s, a, p, v);
    StoreKeepsInv(s, a, p, v);
  }

  lemma BuildingIsInv(s: State)
    requires Building(s, {})
    ensures Inv(s)
  {
  }

  lemma WriteAfterWalk(s: State, a: Address, p: int, v: bv32)
    requires Inv(s) && Accessible(a) && LeafTable(s, s.root, a) == Some(p) && At(s, p)[a.i0].v
    ensures View(s).cur < |View(s).spaces|
    ensures !At(s, p)[a.i0].w ==>
      match Fault(s, p, a.i0)
      case None => Claims(s) > MAX_PAGES
      case Some(s2) =>
        && (At(s2, p)[a.i0].w ==>
              && Inv(s2) && View(s2) == View(s) && s2.root == s.root && Claims(s2) == Claims(s) && s2.used >= s.used
              && LeafTable(s2, s2.root, a) == Some(p) && At(s2, p)[a.i0].v)
        && (!At(s2, p)[a.i0].w ==> IdealWrite(View(s), a, v) == IdealFatal)
  {
    ViewOk(s);
    LookupIsDescent(s, s.root, a);
    HandlerWorks(s, a, p);
    var w := s.mem[p][a.i0].w;
    FaultEntryAt(s, p, a.i0);
    hide Inv, WriteInt, LeafTable, Fault, RootView, Spaces;
  }

  lemma FaultEntryAt(s: State, p: int, k: nat)
    requires Frame(p) && k < NUM_PTE_ENTRIES
    ensures Fault(s, p, k).Some? ==> var e, e' := s.mem[p][k], At(Fault(s, p, k).value, p)[k];
      && (e.c ==> e'.v == e.v && e'.r == e.r && e'.w && !e'.c)
      && (!e.c ==> e' == e)
  {
    if Fault(s, p, k).Some? { FaultEntry(s, p, k); }
  }

  /** A write behaves like a write of the ideal machine, or runs out of memory. */
  lemma WriteRefines(s: State, a: Address, v: bv32)
    requires Inv(s) && Accessible(a)
    ensures View(s).cur < |View(s).spaces|
    ensures match Write(s, a, v)
      case Returned(s', x) =>
        && Inv(s') && s'.root == s.root && Claims(s') == Claims(s) && s'.used >= s.used
        && IdealWrite(View(s), a, v) == IdealReturned(View(s'), x)
      case Fatal => IdealWrite(View(s), a, v) == IdealFatal
      case OutOfMemory => s.used <= MAX_PAGES && Claims(s) > MAX_PAGES
  {
    ViewOk(s);
    WalkWorks(s, a);
    FramesBounded(s);
    hide Inv, Tree, Store, Fault, LeafTable, ViewLeaf, Lookup;
    var w := Mmu(s, a, s.root, 2, false);
    if w.Found? {
      var s1, p := w.s, w.table;
      FoundIsValid(s1, p, a.i0);
      WriteAfterWalk(s1, a, p, v);
      if At(s1, p)[a.i0].w {
        StoreIsIdealWrite(s1, a, p, v);
      } else {
        var f := Fault(s1, p, a.i0);
        if f.Some? && At(f.value, p)[a.i0].w { StoreIsIdealWrite(f.value, a, p, v); }
      }
    } else if w.FatalWalk? {
      FatalIdealWrite(s, a, v);
    }
  }

  lemma FoundIsValid(s: State, p: int, k: nat)
    requires k < NUM_PTE_ENTRIES && ViewLeaf(s, At(s, p)[k]).Some?
    ensures At(s, p)[k].v
  {
  }

  lemma FatalIdealWrite(s: State, a: Address, v: bv32)
    requires Inv(s) && Accessible(a) && View(s).cur < |View(s).spaces|
    requires var page := Lookup(Spaces(s)[Handle(s)], a); page.None? || !page.value.w
    ensures IdealWrite(View(s), a, v) == IdealFatal
  {
  }
}
