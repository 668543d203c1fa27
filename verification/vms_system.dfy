/** The virtual memory system as it runs: one object that updates its memory, its allocator
    and its counters in place. Each method is proved equal to the function that describes it. */
module VmsSystem {
  import opened Binaries
  import opened VmsAddress
  import opened VmsBytes
  import opened VmsPte
  import opened VmsMachine
  import opened VmsSteps
  import opened VmsSpace
  import opened VmsFault
  import opened VmsFork
  import opened VmsCount
  import opened VmsMmu
  import opened VmsStraddle
  import opened VmsSetup
  import opened Wrappers

  class System {
    const base: nat
    const mem: array<Page>
    const inUse: array<bool>
    const ref: array<int>
    var used: int
    var root: nat
    ghost var roots: seq<nat>
    ghost var role: seq<Role>

    ghost predicate Valid()
      reads this
    {
      && mem.Length == MAX_PAGES && inUse.Length == MAX_PAGES && ref.Length == MAX_PAGES
      && |role| == MAX_PAGES && root < MAX_PAGES && base + MAX_PAGES <= PPN_LIMIT
    }

    /** The current state as a value. */
    ghost function Now(): State
      requires Valid()
      reads this, mem, inUse, ref
    {
      Machine(base, mem[..], inUse[..], used, ref[..], root, roots, role)
    }

    /** vms_init, with the page number of the mapped area. */
    constructor (base: nat)
      requires base + MAX_PAGES <= PPN_LIMIT
      ensures Valid() && fresh(mem) && fresh(inUse) && fresh(ref) && Now() == Blank(base)
      ensures FreeFramesBlank(Now()) && TablesOk(Now()) && SharingOk(Now()) && CountsOk(Now()) && UsedOk(Now())
      ensures Now().used == 0 && RefSum(Now()) == 0 && Now().roots == []
    {
      this.base := base;
      mem := new Page[MAX_PAGES](_ => ZeroPage());
      inUse := new bool[MAX_PAGES](_ => false);
      ref := new int[MAX_PAGES](_ => 0);
      used := 0;
      root := 0;
      roots := [];
      role := seq(MAX_PAGES, _ => Unused);
      new;
      BlankMachine(Now());
    }

    /** The first page becomes the current root table. */
    method BootRoot()
      requires Valid() && Now() == Blank(base)
      modifies this`used, this`role, this`roots, this`root, inUse
      ensures Valid() && Now() == Boot(base)
    {
      var ok, p := NewPage(Root(0));
      roots := [p];
      SetRoot(p);
    }

    /** vms_new_page: the scan for the first free page. */
    method NewPage(ghost use: Role) returns (ok: bool, p: nat)
      requires Valid()
      modifies this`used, this`role, inUse
      ensures Valid()
      ensures ok == FirstFree(old(inUse[..]), 0).Some?
      ensures ok ==> Frame(p) && Some(p) == FirstFree(old(inUse[..]), 0) && Now() == Take(old(Now()), p, use)
      ensures !ok ==> Now() == old(Now())
    {
      ok, p := false, 0;
      for i := 0 to MAX_PAGES
        invariant Now() == old(Now()) && Valid() && !ok
        invariant FirstFree(inUse[..], 0) == FirstFree(inUse[..], i)
      {
        if !inUse[i] {
          inUse[i] := true;
          used := used + 1;
          role := role[i := use];
          return true, i;
        }
      }
    }

    /** vms_free_page */
    method FreePage(p: nat)
      requires Valid() && Frame(p) && inUse[p]
      modifies this`used, this`role, inUse, mem
      ensures Valid() && Now() == Release(old(Now()), p)
    {
      inUse[p] := false;
      mem[p] := ZeroPage();
      used := used - 1;
      role := role[p := Unused];
    }

    /** *entry = e, for entry `k` of table `p`. */
    method SetEntry(p: nat, k: nat, e: Pte)
      requires Valid() && Frame(p) && k < NUM_PTE_ENTRIES
      modifies mem
      ensures Now() == Put(old(Now()), p, k, e)
    {
      mem[p] := mem[p][k := e];
    }

    /** memcpy of a whole page. */
    method MovePage(q: nat, p: nat)
      requires Valid() && Frame(p) && Frame(q)
      modifies mem
      ensures Now() == SetPage(old(Now()), p, old(Now()).mem[q])
    {
      mem[p] := mem[q];
    }

    /** An entry of one table, copied to another and redirected to a page. */
    method CopyEntry(t: nat, f: nat, k: nat, p: nat)
      requires Valid() && Frame(t) && Frame(f) && Frame(p) && t != f && k < NUM_PTE_ENTRIES
      modifies mem
      ensures Now() == Put(old(Now()), f, k, Redirect(old(Now()), old(mem[t][k]), p))
    {
      ghost var s := Now();
      SetEntry(f, k, mem[t][k]);
      SetEntry(f, k, mem[f][k].(ppn := base + p));
      PutTwice(s, f, k, s.mem[t][k], Redirect(s, s.mem[t][k], p));
    }

    method AddToRef(q: nat, d: int)
      requires Valid() && Frame(q)
      modifies ref
      ensures Now() == AddRef(old(Now()), q, d)
    {
      ref[q] := ref[q] + d;
    }

    /** page_fault_handler */
    method PageFaultHandler(p: nat, k: nat) returns (ok: bool)
      requires Valid() && Inv(Now()) && Frame(p) && IsTable(role[p]) && k < NUM_PTE_ENTRIES
      modifies this`used, this`role, mem, inUse, ref
      ensures Valid() && ok == Fault(old(Now()), p, k).Some?
      ensures ok ==> Now() == Fault(old(Now()), p, k).value
    {
      hide Inv, Tree, BreakShare;
      ghost var s := Now();
      InvFacts(s);
      EntryFacts(s, p, k);
      if mem[p][k].c {
        var q := mem[p][k].ppn - base;
        SetEntry(p, k, mem[p][k].(w := true));
        SetEntry(p, k, mem[p][k].(c := false));
        PutTwice(s, p, k, s.mem[p][k].(w := true), Writable(s.mem[p][k]));
        if ref[q] == 0 { return true; }
        ok := SplitPage(p, k, q, s);
        return;
      }
      return true;
    }

    // ---- Building tables ---------------------------------------------------------------

    /** vms_set_root_page_table, for a page that becomes the root of a new address space. */
    method UseRoot(p: nat)
      requires Valid() && Frame(p)
      modifies this`role, this`roots, this`root
      ensures Valid() && Now() == DeclareRoot(old(Now()), p).(root := p)
    {
      role := role[p := Root(|roots|)];
      roots := roots + [p];
      SetRoot(p);
    }

    /** vms_pte_set_ppn and vms_pte_valid_set, for a table below a table. */
    method LinkTable(t: nat, k: nat, p: nat)
      requires Valid() && Frame(t) && Frame(p) && k < NUM_PTE_ENTRIES && IsTable(role[t]) && mem[t][k] == ZERO_PTE
      modifies this`role, mem
      ensures Valid() && Now() == VmsSetup.LinkTable(old(Now()), t, k, p)
    {
      ghost var s := Now();
      var e := mem[t][k].(ppn := base + p);
      SetEntry(t, k, e);
      SetEntry(t, k, mem[t][k].(v := true));
      PutTwice(s, t, k, e, TableEntry(s, p));
      role := role[p := ChildRole(role[t], k)];
    }

    /** The same for a page below a leaf table, with vms_pte_read_set and vms_pte_write_set. */
    method MapPage(t: nat, k: nat, p: nat, r: bool, w: bool)
      requires Valid() && Frame(t) && Frame(p) && k < NUM_PTE_ENTRIES && mem[t][k] == ZERO_PTE
      modifies mem
      ensures Now() == VmsSetup.MapPage(old(Now()), t, k, p, r, w)
    {
      ghost var s := Now();
      var e := mem[t][k].(ppn := base + p);
      SetEntry(t, k, e);
      SetEntry(t, k, mem[t][k].(v := true));
      PutTwice(s, t, k, e, TableEntry(s, p));
      if r {
        SetEntry(t, k, mem[t][k].(r := true));
        PutTwice(s, t, k, TableEntry(s, p), TableEntry(s, p).(r := true));
      }
      if w {
        SetEntry(t, k, mem[t][k].(w := true));
        PutTwice(s, t, k, TableEntry(s, p).(r := r), TableEntry(s, p).(r := r, w := true));
      }
    }

    /** The second half of the handler: a private copy of page `q`. */
    method SplitPage(p: nat, k: nat, q: nat, ghost s: State)
      returns (ok: bool)
      requires Valid() && Frame(p) && Frame(q) && p != q && k < NUM_PTE_ENTRIES
      requires s.inUse[p] && s.inUse[q] && Target(s, s.mem[p][k]) == q
      requires Now() == Put(s, p, k, Writable(s.mem[p][k]))
      modifies this`used, this`role, mem, inUse, ref
      ensures Valid() && ok == FirstFree(s.inUse, 0).Some?
      ensures ok ==> Now() == BreakShare(s, p, k, FirstFree(s.inUse, 0).value)
    {
      hide BreakShare;
      var n;
      ok, n := NewPage(Data);
      if !ok { return; }
      MovePage(q, n);
      SetEntry(p, k, mem[p][k].(ppn := base + n));
      AddToRef(q, -1);
      BreakShareInSteps(s, p, k, n);
    }

    /** `copy`: the outer loop. The roles of the new tables are their positions in the new
        tree. */
    method Copy(mode: Mode) returns (ok: bool, newRoot: nat)
      requires Valid() && Inv(Now())
      modifies this, mem, inUse, ref
      ensures Valid() && ok == Fork(old(Now()), mode).Some?
      ensures ok ==> Now() == Fork(old(Now()), mode).value && Some(newRoot) == FirstFree(old(inUse[..]), 0)
    {
      hide Inv, Building, Tree, CopyRootEntry, CopyMid;
      ghost var s := Now();
      ghost var h := |roots|;
      ok, newRoot := NewPage(Root(h));
      if !ok { return; }
      roots := roots + [newRoot];
      ghost var start := Now();
      RootStart(s, newRoot);
      for i := 0 to NUM_PTE_ENTRIES
        invariant Valid() && root == s.root && CopyRoot(start, s.root, newRoot, h, i, mode) == Some(Now())
      {
        CopyRootWorks(start, s.root, newRoot, h, i, mode);
        ok := CopyL2Entry(newRoot, i, mode, h);
        if !ok { CopyRootNone(start, s.root, newRoot, h, i + 1, NUM_PTE_ENTRIES, mode); return; }
        CopyRootWorks(start, s.root, newRoot, h, i + 1, mode);
      }
      return true, newRoot;
    }

    /** One iteration of the outer loop. */
    method CopyL2Entry(newRoot: nat, i: nat, mode: Mode, ghost h: nat) returns (ok: bool)
      requires Valid() && RootSetting(Now(), root, newRoot, h) && i < NUM_PTE_ENTRIES
      modifies this, mem, inUse, ref
      ensures Valid() && ok == CopyRootEntry(old(Now()), old(root), newRoot, h, i, mode).Some?
      ensures ok ==> Now() == CopyRootEntry(old(Now()), old(root), newRoot, h, i, mode).value
    {
      hide Inv, Building, Tree, CopyMid, MidSetting, RootSetting;
      ghost var s := Now();
      RootSettingTree(s, root, newRoot, h);
      EntryFacts(s, root, i);
      EntryFacts(s, newRoot, i);
      if !mem[root][i].v { return true; }
      var l1, l1Forked := mem[root][i].ppn - base, 0;
      ok, l1Forked := NewPage(Mid(h, i));
      if !ok { return; }
      MidStart(s, root, newRoot, h, i, l1Forked);
      ok := FillL1(l1, l1Forked, mode, h, i, {} + {l1Forked});
      if !ok { return; }
      CopyEntry(root, newRoot, i, l1Forked);
    }

    /** The middle loop. */
    method FillL1(l1: nat, l1Forked: nat, mode: Mode, ghost h: nat, ghost i: nat, ghost open: set<int>)
      returns (ok: bool)
      requires Valid() && MidSetting(Now(), l1, l1Forked, h, i, open) && BlankFrom(Now(), l1Forked, 0)
      modifies this, mem, inUse, ref
      ensures Valid() && ok == CopyMid(old(Now()), l1, l1Forked, h, i, NUM_PTE_ENTRIES, mode).Some?
      ensures ok ==> Now() == CopyMid(old(Now()), l1, l1Forked, h, i, NUM_PTE_ENTRIES, mode).value && root == old(root)
    {
      hide Building, Tree, CopyMidEntry, MidSetting, BlankFrom;
      ghost var start := Now();
      for j := 0 to NUM_PTE_ENTRIES
        invariant Valid() && root == start.root && CopyMid(start, l1, l1Forked, h, i, j, mode) == Some(Now())
      {
        CopyMidWorks(start, l1, l1Forked, h, i, j, mode, open);
        ok := CopyL1Entry(l1, l1Forked, j, mode, h, i, open);
        if !ok { CopyMidNone(start, l1, l1Forked, h, i, j + 1, NUM_PTE_ENTRIES, mode); return; }
        CopyMidRoot(start, l1, l1Forked, h, i, j + 1, mode, open);
      }
      return true;
    }

    /** One iteration of the middle loop. */
    method CopyL1Entry(l1: nat, l1Forked: nat, j: nat, mode: Mode, ghost h: nat, ghost i: nat, ghost open: set<int>)
      returns (ok: bool)
      requires Valid() && MidSetting(Now(), l1, l1Forked, h, i, open) && j < NUM_PTE_ENTRIES
      modifies this, mem, inUse, ref
      ensures Valid() && ok == CopyMidEntry(old(Now()), l1, l1Forked, h, i, j, mode).Some?
      ensures ok ==> Now() == CopyMidEntry(old(Now()), l1, l1Forked, h, i, j, mode).value
    {
      hide Inv, Building, Tree, CopyLow, LowSetting, MidSetting;
      ghost var s := Now();
      MidSettingTree(s, l1, l1Forked, h, i, open);
      EntryFacts(s, l1, j);
      EntryFacts(s, l1Forked, j);
      if !mem[l1][j].v { return true; }
      var l0, l0Forked := mem[l1][j].ppn - base, 0;
      ok, l0Forked := NewPage(Low(h, i, j));
      if !ok { return; }
      LowStart(s, l1, l1Forked, h, i, j, l0Forked, open);
      ok := FillL0(l0, l0Forked, mode, open + {l0Forked});
      if !ok { return; }
      CopyEntry(l1, l1Forked, j, l0Forked);
    }

    /** The inner loop. */
    method FillL0(l0: nat, l0Forked: nat, mode: Mode, ghost open: set<int>) returns (ok: bool)
      requires Valid() && LowSetting(Now(), l0, l0Forked, open) && BlankFrom(Now(), l0Forked, 0)
      modifies this, mem, inUse, ref
      ensures Valid() && ok == CopyLow(old(Now()), l0, l0Forked, NUM_PTE_ENTRIES, mode).Some?
      ensures ok ==> Now() == CopyLow(old(Now()), l0, l0Forked, NUM_PTE_ENTRIES, mode).value
    {
      hide Building, Tree, CopyLeaf, LowSetting, BlankFrom;
      ghost var start := Now();
      for k := 0 to NUM_PTE_ENTRIES
        invariant Valid() && CopyLow(start, l0, l0Forked, k, mode) == Some(Now())
      {
        CopyLowWorks(start, l0, l0Forked, k, mode, open);
        ok := CopyL0Entry(l0, l0Forked, k, mode, open);
        if !ok { CopyLowNone(start, l0, l0Forked, k + 1, NUM_PTE_ENTRIES, mode); return; }
      }
      return true;
    }

    /** One iteration of the inner loop. */
    method CopyL0Entry(lo: nat, lf: nat, k: nat, mode: Mode, ghost open: set<int>) returns (ok: bool)
      requires Valid() && LowSetting(Now(), lo, lf, open) && k < NUM_PTE_ENTRIES
      modifies this, mem, inUse, ref
      ensures Valid() && ok == CopyLeaf(old(Now()), lo, lf, k, mode).Some?
      ensures ok ==> Now() == CopyLeaf(old(Now()), lo, lf, k, mode).value
    {
      hide Building, Tree, LowSetting, Share, CopyPage;
      ghost var s := Now();
      LowSettingTree(s, lo, lf, open);
      EntryFacts(s, lo, k);
      EntryFacts(s, lf, k);
      var e := mem[lo][k];
      if !e.v { return true; }
      if mode == Eager {
        ok := CopyPrivately(lo, lf, k);
      } else if !e.w && !e.c {
        SetEntry(lf, k, e);
        ok := true;
      } else {
        ShareLazily(lo, lf, k);
        ok := true;
      }
    }

    method CopyPrivately(lo: nat, lf: nat, k: nat) returns (ok: bool)
      requires Valid() && Frame(lo) && Frame(lf) && lo != lf && k < NUM_PTE_ENTRIES
      requires inUse[lo] && inUse[lf] && Frame(mem[lo][k].ppn - base)
      modifies this, mem, inUse
      ensures Valid() && ok == FirstFree(old(inUse[..]), 0).Some?
      ensures ok ==> Now() == CopyPage(old(Now()), old(mem[lo][k]), lf, k, FirstFree(old(inUse[..]), 0).value)
    {
      var p0 := mem[lo][k].ppn - base;
      var p0Forked;
      ok, p0Forked := NewPage(Data);
      if !ok { return; }
      MovePage(p0, p0Forked);
      CopyEntry(lo, lf, k, p0Forked);
    }

    method ShareLazily(lo: nat, lf: nat, k: nat)
      requires Valid() && Frame(lo) && Frame(lf) && lo != lf && k < NUM_PTE_ENTRIES && Frame(mem[lo][k].ppn - base)
      modifies mem, ref
      ensures Now() == Share(old(Now()), lo, k, lf, k)
    {
      hide Share;
      ghost var s := Now();
      ghost var e, f := mem[lo][k], mem[lf][k];
      SetEntry(lf, k, mem[lf][k].(w := false));
      SetEntry(lf, k, mem[lf][k].(c := true));
      PutTwice(s, lf, k, f.(w := false), Lazy(f));
      SetEntry(lo, k, mem[lo][k].(w := false));
      SetEntry(lo, k, mem[lo][k].(c := true));
      PutTwice(Put(s, lf, k, Lazy(f)), lo, k, e.(w := false), Lazy(e));
      AddToRef(mem[lo][k].ppn - base, 1);
      SetEntry(lf, k, mem[lo][k]);
      ShareInSteps(s, lo, lf, k, Lazy(f));
    }

    // ---- The walk, reads and writes ---------------------------------------------------

    /** vms_set_root_page_table */
    method SetRoot(p: nat)
      requires Valid() && Frame(p)
      modifies this`root
      ensures Valid() && Now() == old(Now()).(root := p)
    {
      root := p;
    }

    /** mmu: the loop with its fault-and-retry; `faulted` is reset at each level. */
    method Walk(a: Address) returns (r: WalkEnd)
      requires Valid() && Inv(Now()) && a.Ok()
      modifies this`used, this`role, mem, inUse, ref
      ensures Valid() && WalkMatches(r, Now(), Mmu(old(Now()), a, old(root), 2, false))
      ensures r.Entry? ==> Inv(Now()) && Frame(r.table) && role[r.table].Low? && mem[r.table][a.i0].v
    {
      hide Inv, Tree, Fault;
      ghost var s := Now();
      InvFacts(s);
      var table, level, faulted := root, 2, false;
      while true
        invariant Valid() && Inv(Now()) && root == s.root && 0 <= level < 3
        invariant Frame(table) && IsTable(role[table]) && LevelOf(role[table]) == level
        invariant Mmu(Now(), a, table, level, faulted) == Mmu(s, a, s.root, 2, false)
        decreases level, !faulted
      {
        ghost var now := Now();
        InvFacts(now);
        EntryFacts(now, table, a.Index(level));
        if ShouldGenerateFault(level, mem[table][a.Index(level)]) {
          if faulted { return PageFault; }
          faulted := true;
          FaultKeepsInv(now, table, a.Index(level));
          FaultKeepsTable(now, table, a.Index(level));
          var ok := PageFaultHandler(table, a.Index(level));
          if !ok { return NoPage; }
          continue;
        }
        faulted := false;
        if level != 0 {
          table := mem[table][a.Index(level)].ppn - base;
          level := level - 1;
          continue;
        }
        return Entry(table);
      }
    }

    /** vms_write */
    method Write(va: bv64, value: bv32) returns (r: AccessEnd)
      requires Valid() && Inv(Now())
      modifies this`used, this`role, mem, inUse, ref
      ensures Valid() && AccessMatches(r, Now(), WriteAt(old(Now()), Split(va), value))
    {
      hide Inv, Tree, Fault, Mmu, StoreAt, Split;
      var a := Split(va);
      var w := Walk(a);
      match w {
        case PageFault => return Failed;
        case NoPage => return Exhausted;
        case Entry(table) =>
          if !mem[table][a.i0].w {
            FaultFacts(Now(), table, a.i0);
            var ok := PageFaultHandler(table, a.i0);
            if !ok { return Exhausted; }
            if !mem[table][a.i0].w { return Failed; }
          }
          MappedFrame(Now(), table, a.i0);
          var x := (mem[table][a.i0].ppn - base) * PAGE_SIZE + a.offset;
          if x + 4 > AREA_SIZE { return Beyond; }
          StoreInt(x, value);
          return Accessed(value);
      }
    }

    /** *pointer = value, through the translated address. */
    method StoreInt(x: nat, value: bv32)
      requires Valid() && x + 4 <= AREA_SIZE
      modifies mem
      ensures Valid() && Now() == StoreAt(old(Now()), x, value)
    {
      hide IntByte, PutAreaByte;
      StoreByte(x, IntByte(value, 0));
      StoreByte(x + 1, IntByte(value, 1));
      StoreByte(x + 2, IntByte(value, 2));
      StoreByte(x + 3, IntByte(value, 3));
    }

    method StoreByte(x: nat, b: bv8)
      requires Valid() && x < AREA_SIZE
      modifies mem
      ensures Valid() && Now() == PutAreaByte(old(Now()), x, b)
    {
      hide PutByte;
      mem[x / PAGE_SIZE] := PutByte(mem[x / PAGE_SIZE], x % PAGE_SIZE, b);
    }

    /** vms_read */
    method Read(va: bv64) returns (r: AccessEnd)
      requires Valid() && Inv(Now())
      modifies this`used, this`role, mem, inUse, ref
      ensures Valid() && AccessMatches(r, Now(), ReadAt(old(Now()), Split(va)))
    {
      hide Inv, Tree, Fault, Mmu, LoadAt, Split;
      var a := Split(va);
      var w := Walk(a);
      match w {
        case PageFault => return Failed;
        case NoPage => return Exhausted;
        case Entry(table) =>
          if !mem[table][a.i0].r {
            FaultFacts(Now(), table, a.i0);
            var ok := PageFaultHandler(table, a.i0);
            if !ok { return Exhausted; }
            if !mem[table][a.i0].r { return Failed; }
          }
          MappedFrame(Now(), table, a.i0);
          var x := (mem[table][a.i0].ppn - base) * PAGE_SIZE + a.offset;
          if x + 4 > AREA_SIZE { return Beyond; }
          var value := LoadInt(x);
          return Accessed(value);
      }
    }

    /** *pointer */
    method LoadInt(x: nat) returns (value: bv32)
      requires Valid() && x + 4 <= AREA_SIZE
      ensures value == LoadAt(Now(), x)
    {
      hide IntOf, ByteAt;
      value := IntOf(
        ByteAt(mem[x / PAGE_SIZE], x % PAGE_SIZE), ByteAt(mem[(x + 1) / PAGE_SIZE], (x + 1) % PAGE_SIZE),
        ByteAt(mem[(x + 2) / PAGE_SIZE], (x + 2) % PAGE_SIZE), ByteAt(mem[(x + 3) / PAGE_SIZE], (x + 3) % PAGE_SIZE));
    }
  }

  // ---- The walk -----------------------------------------------------------------------

  /** How a walk of the object ends: at an entry, with a fatal fault, or without a page. */
  datatype WalkEnd = Entry(table: nat) | PageFault | NoPage

  ghost predicate WalkMatches(r: WalkEnd, now: State, w: Walk) {
    match w
    case Found(s, table) => r.Entry? && r.table == table && now == s
    case FatalWalk => r == PageFault
    case NoMemoryWalk => r == NoPage
  }

  datatype AccessEnd = Accessed(value: bv32) | Failed | Exhausted | Beyond

  ghost predicate AccessMatches(r: AccessEnd, now: State, o: Access) {
    match o
    case Done(s, v) => r == Accessed(v) && now == s
    case Refused => r == Failed
    case NoMemory => r == Exhausted
    case PastArea => r == Beyond
  }

  function LevelOf(r: Role): nat { if r.Root? then 2 else if r.Mid? then 1 else 0 }

  /** The handler leaves the current root and the table it works on in their roles. */
  lemma FaultKeepsTable(s: State, p: nat, k: nat)
    requires Inv(s) && Frame(p) && IsTable(s.role[p]) && k < NUM_PTE_ENTRIES
    ensures Fault(s, p, k).Some? ==>
      Fault(s, p, k).value.root == s.root && Fault(s, p, k).value.role[p] == s.role[p]
  {
    InvFacts(s);
    RoleMeansUse(s, p);
    hide Inv, Tree;
  }

  /** After a call of the handler, the entry still maps a page. */
  lemma FaultFacts(s: State, p: nat, k: nat)
    requires Inv(s) && Frame(p) && s.role[p].Low? && k < NUM_PTE_ENTRIES && s.mem[p][k].v
    ensures Fault(s, p, k).Some? ==>
      var s' := Fault(s, p, k).value; Inv(s') && s'.role[p] == s.role[p] && s'.mem[p][k].v
  {
    FaultKeepsInv(s, p, k);
    FaultKeepsTable(s, p, k);
    if Fault(s, p, k).Some? { FaultEntry(s, p, k); }
    hide Inv, Fault;
  }

  lemma MappedFrame(s: State, p: nat, k: nat)
    requires Inv(s) && Frame(p) && s.role[p].Low? && k < NUM_PTE_ENTRIES && s.mem[p][k].v
    ensures Frame(Target(s, s.mem[p][k]))
  {
    InvFacts(s);
    hide Inv, Tree;
    EntryFacts(s, p, k);
  }

  // ---- The loops of `copy` ------------------------------------------------------------

  /** The current root does not move while tables are copied. */
  lemma CopyMidRoot(s: State, mo: int, mf: int, h: nat, i: nat, n: nat, mode: Mode, open: set<int>)
    requires MidSetting(s, mo, mf, h, i, open) && n <= NUM_PTE_ENTRIES && BlankFrom(s, mf, 0)
    requires CopyMid(s, mo, mf, h, i, n, mode).Some?
    ensures CopyMid(s, mo, mf, h, i, n, mode).value.root == s.root
  {
    CopyMidWorks(s, mo, mf, h, i, n, mode, open);
  }

  lemma {:induction false} CopyLowNone(s: State, lo: int, lf: int, n: nat, m: nat, mode: Mode)
    requires n <= m <= NUM_PTE_ENTRIES && CopyLow(s, lo, lf, n, mode).None?
    ensures CopyLow(s, lo, lf, m, mode).None?
  {
    if n < m { CopyLowNone(s, lo, lf, n, m - 1, mode); }
  }

  lemma {:induction false} CopyMidNone(s: State, mo: int, mf: int, h: nat, i: nat, n: nat, m: nat, mode: Mode)
    requires n <= m <= NUM_PTE_ENTRIES && CopyMid(s, mo, mf, h, i, n, mode).None?
    ensures CopyMid(s, mo, mf, h, i, m, mode).None?
  {
    if n < m { CopyMidNone(s, mo, mf, h, i, n, m - 1, mode); }
  }

  lemma {:induction false} CopyRootNone(s: State, ro: int, rf: int, h: nat, n: nat, m: nat, mode: Mode)
    requires n <= m <= NUM_PTE_ENTRIES && CopyRoot(s, ro, rf, h, n, mode).None?
    ensures CopyRoot(s, ro, rf, h, m, mode).None?
  {
    if n < m { CopyRootNone(s, ro, rf, h, n, m - 1, mode); }
  }

  lemma ShareInSteps(s: State, lo: int, lf: int, k: nat, x: Pte)
    requires Frame(lo) && Frame(lf) && lo != lf && k < NUM_PTE_ENTRIES
    ensures var e := Lazy(s.mem[lo][k]);
      Put(AddRef(Put(Put(s, lf, k, x), lo, k, e), Target(s, e), 1), lf, k, e) == Share(s, lo, k, lf, k)
  {
    var e := Lazy(s.mem[lo][k]);
    var s' := Put(AddRef(Put(Put(s, lf, k, x), lo, k, e), Target(s, e), 1), lf, k, e);
    assert s.mem[lf][k := x][k := e] == s.mem[lf][k := e];
    assert s'.mem == Share(s, lo, k, lf, k).mem;
  }

  lemma PutTwice(s: State, p: int, k: nat, e: Pte, e': Pte)
    requires Frame(p) && k < NUM_PTE_ENTRIES
    ensures Put(Put(s, p, k, e), p, k, e') == Put(s, p, k, e')
  {
    assert s.mem[p][k := e][k := e'] == s.mem[p][k := e'];
    assert Put(Put(s, p, k, e), p, k, e').mem == Put(s, p, k, e').mem;
  }

  /** The order in which the handler works makes no difference. */
  lemma BreakShareInSteps(s: State, p: int, k: nat, n: nat)
    requires Frame(p) && k < NUM_PTE_ENTRIES && Fresh(s, n) && s.inUse[p] && Frame(Target(s, s.mem[p][k]))
    requires s.inUse[Target(s, s.mem[p][k])] && Target(s, s.mem[p][k]) != p
    ensures var e, q := s.mem[p][k], Target(s, s.mem[p][k]);
      var s1 := Take(Put(s, p, k, Writable(e)), n, Data);
      var s2 := SetPage(s1, n, s1.mem[q]);
      AddRef(Put(s2, p, k, Redirect(s2, Writable(e), n)), q, -1) == BreakShare(s, p, k, n)
  {
    var e, q := s.mem[p][k], Target(s, s.mem[p][k]);
    var s1 := Take(Put(s, p, k, Writable(e)), n, Data);
    var s2 := SetPage(s1, n, s1.mem[q]);
    var s3 := AddRef(Put(s2, p, k, Redirect(s2, Writable(e), n)), q, -1);
    var s' := BreakShare(s, p, k, n);
    assert s3.mem[p] == s'.mem[p];
    assert s3.mem == s'.mem;
  }
}
