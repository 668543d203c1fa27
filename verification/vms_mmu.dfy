/** The walk through the page tables with its fault-and-retry loop, and the reads and writes
    of programs. */
module VmsMmu {
  import opened VmsAddress
  import opened VmsBytes
  import opened VmsPte
  import opened VmsMachine
  import opened VmsSpace
  import opened VmsFault
  import opened Wrappers

  predicate ShouldGenerateFault(level: nat, e: Pte) {
    if !e.v then true
    else if level != 0 && (e.r || e.w) then true
    else level == 0 && !e.r && !e.w
  }

  /** The entry found, as its leaf table; a fatal page fault; or exit(ENOMEM). */
  datatype Walk = Found(s: State, table: int) | FatalWalk | NoMemoryWalk

  /** The walk from `table` at `level`; `faulted` says that the handler has just been called
      for this entry. The handler is called at most once per level, so the walk ends. */
  function Mmu(s: State, a: Address, table: int, level: nat, faulted: bool): Walk
    requires a.Ok() && level < 3
    decreases level, !faulted
  {
    var e := At(s, table)[a.Index(level)];
    if ShouldGenerateFault(level, e) then
      if faulted then FatalWalk else
      match Fault(s, table, a.Index(level))
      case None => NoMemoryWalk
      case Some(s') => Mmu(s', a, table, level, true)
    else if level != 0 then Mmu(s, a, Target(s, e), level - 1, false)
    else Found(s, table)
  }

  /** One step of the walk, in any state: an entry without the custom bit that is not valid,
      or that maps a page above the lowest level, or that allows nothing at the lowest, ends
      the walk; other entries lead one level down, or are the result. */
  lemma WalkStep(s: State, a: Address, table: int, level: nat)
    requires a.Ok() && level < 3
    ensures var e := At(s, table)[if level == 2 then a.i2 else if level == 1 then a.i1 else a.i0];
      var w := Mmu(s, a, table, level, false);
      && (!e.c && (!e.v || (level != 0 && (e.r || e.w)) || (level == 0 && !e.r && !e.w)) ==> w == FatalWalk)
      && (e.v && level != 0 && !e.r && !e.w ==> w == Mmu(s, a, Target(s, e), level - 1, false))
      && (e.v && level == 0 && (e.r || e.w) ==> w == Found(s, table))
  {
  }

  predicate Accessible(a: Address) { a.Ok() && a.offset + 4 <= PAGE_SIZE }

  datatype Outcome = Returned(s: State, value: bv32) | Fatal | OutOfMemory

  function Read(s: State, a: Address): Outcome
    requires Accessible(a)
  {
    match Mmu(s, a, s.root, 2, false)
    case FatalWalk => Fatal
    case NoMemoryWalk => OutOfMemory
    case Found(s1, table) =>
      if At(s1, table)[a.i0].r then Returned(s1, Load(s1, table, a)) else
      match Fault(s1, table, a.i0)
      case None => OutOfMemory
      case Some(s2) => if At(s2, table)[a.i0].r then Returned(s2, Load(s2, table, a)) else Fatal
  }

  function Load(s: State, table: int, a: Address): bv32
    requires Accessible(a)
  {
    ReadInt(At(s, Target(s, At(s, table)[a.i0])), a.offset)
  }

  function Store(s: State, table: int, a: Address, v: bv32): State
    requires Accessible(a)
  {
    var q := Target(s, At(s, table)[a.i0]);
    SetPage(s, q, WriteInt(At(s, q), a.offset, v))
  }

  function Write(s: State, a: Address, v: bv32): Outcome
    requires Accessible(a)
  {
    match Mmu(s, a, s.root, 2, false)
    case FatalWalk => Fatal
    case NoMemoryWalk => OutOfMemory
    case Found(s1, table) =>
      if At(s1, table)[a.i0].w then Returned(Store(s1, table, a, v), v) else
      match Fault(s1, table, a.i0)
      case None => OutOfMemory
      case Some(s2) => if At(s2, table)[a.i0].w then Returned(Store(s2, table, a, v), v) else Fatal
  }

  // ---- The walk is a plain descent ----------------------------------------------------

  /** What the last step of the walk does at a leaf entry. */
  function LeafWalk(s: State, a: Address, p: int): Walk
    requires a.Ok()
  {
    var e := At(s, p)[a.i0];
    if e.v && (e.r || e.w) then Found(s, p)
    else if !e.c then FatalWalk
    else match Fault(s, p, a.i0) case None => NoMemoryWalk case Some(s') => Found(s', p)
  }

  /** The walk reaches the table that a plain descent reaches, fails where the descent fails,
      and lets the handler act at a leaf entry only. */
  lemma MmuIsDescent(s: State, a: Address)
    requires Inv(s) && a.Ok()
    ensures Mmu(s, a, s.root, 2, false)
         == match LeafTable(s, s.root, a) case None => FatalWalk case Some(p) => LeafWalk(s, a, p)
  {
    InvFacts(s);
    hide Inv, Tree;
    EntryFacts(s, s.root, a.i2);
    var e2 := s.mem[s.root][a.i2];
    if e2.v {
      var mid := Target(s, e2);
      EntryFacts(s, mid, a.i1);
      var e1 := s.mem[mid][a.i1];
      MmuStep(s, a, s.root, 2);
      MmuStep(s, a, mid, 1);
      if e1.v {
        EntryFacts(s, Target(s, e1), a.i0);
        MmuAtLeaf(s, a, Target(s, e1));
      }
    } else {
      MmuStep(s, a, s.root, 2);
    }
  }

  lemma InvFacts(s: State)
    requires Inv(s)
    ensures Tree(s) && s.role[s.root].Root? && s.role[s.root].h < |s.roots| && s.roots[s.role[s.root].h] == s.root
    ensures UsedOk(s) && RootsOk(s)
  {
  }

  /** At an upper level, the walk goes down through a valid entry and fails at any other. */
  lemma MmuStep(s: State, a: Address, table: int, level: nat)
    requires a.Ok() && 0 < level < 3
    requires var e := At(s, table)[a.Index(level)]; !e.c && (e.v ==> !e.r && !e.w)
    ensures var e := At(s, table)[a.Index(level)];
      Mmu(s, a, table, level, false) == if e.v then Mmu(s, a, Target(s, e), level - 1, false) else FatalWalk
  {
    var e := At(s, table)[a.Index(level)];
    if !e.v {
      assert Fault(s, table, a.Index(level)) == Some(s);
      assert Mmu(s, a, table, level, true) == FatalWalk;
    }
  }

  lemma MmuAtLeaf(s: State, a: Address, p: int)
    requires a.Ok() && Frame(p) && (s.mem[p][a.i0].c ==> s.mem[p][a.i0].v)
    ensures Mmu(s, a, p, 0, false) == LeafWalk(s, a, p)
  {
    var e := s.mem[p][a.i0];
    if !(e.v && (e.r || e.w)) {
      match Fault(s, p, a.i0)
      case None =>
      case Some(s') =>
        FaultEntry(s, p, a.i0);
        assert Mmu(s', a, p, 0, true) == if e.c then Found(s', p) else FatalWalk;
    }
  }

  /** The handler makes a custom entry writable and leaves any other entry as it is. */
  /** The handler gives a custom entry its write bit back and takes the custom bit away; of
      the rest of the entry at most the page number changes. */
  lemma FaultEntry(s: State, p: int, k: nat)
    requires Frame(p) && k < NUM_PTE_ENTRIES && Fault(s, p, k).Some?
    ensures var e, e' := s.mem[p][k], Fault(s, p, k).value.mem[p][k];
      && (e.c ==> e' == e.(ppn := e'.ppn, w := true, c := false))
      && (!e.c ==> e' == e)
  {
  }
}
