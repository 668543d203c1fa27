/** Accesses that do not fit into their page: the code moves four bytes from any offset, and at
    the last three offsets it reaches into the next physical page. */
module VmsStraddle {
  import opened VmsAddress
  import opened VmsBytes
  import opened VmsMachine
  import opened VmsSpace
  import opened VmsFault
  import opened VmsMmu
  import opened VmsCount
  import opened VmsIdeal
  import opened Wrappers

  const AREA_SIZE: nat := MAX_PAGES * PAGE_SIZE

  /** Byte `x` of the mapped area. */
  function AreaByte(s: State, x: nat): bv8
    requires x < AREA_SIZE
  {
    ByteAt(s.mem[x / PAGE_SIZE], x % PAGE_SIZE)
  }

  function PutAreaByte(s: State, x: nat, b: bv8): State
    requires x < AREA_SIZE
  {
    SetPage(s, x / PAGE_SIZE, PutByte(s.mem[x / PAGE_SIZE], x % PAGE_SIZE, b))
  }

  lemma PutAreaByteAt(s: State, x: nat, b: bv8, y: nat)
    requires x < AREA_SIZE && y < AREA_SIZE
    ensures AreaByte(PutAreaByte(s, x, b), y) == if y == x then b else AreaByte(s, y)
  {
    hide ByteAt, PutByte;
    if x / PAGE_SIZE == y / PAGE_SIZE {
      ByteAtPutByte(s.mem[x / PAGE_SIZE], x % PAGE_SIZE, b, y % PAGE_SIZE);
    }
  }

  /** *pointer = v, for any pointer into the area that leaves four bytes. */
  function StoreAt(s: State, x: nat, v: bv32): State
    requires x + 4 <= AREA_SIZE
  {
    PutAreaByte(PutAreaByte(PutAreaByte(PutAreaByte(s,
      x, IntByte(v, 0)), x + 1, IntByte(v, 1)), x + 2, IntByte(v, 2)), x + 3, IntByte(v, 3))
  }

  /** *pointer */
  function LoadAt(s: State, x: nat): bv32
    requires x + 4 <= AREA_SIZE
  {
    IntOf(AreaByte(s, x), AreaByte(s, x + 1), AreaByte(s, x + 2), AreaByte(s, x + 3))
  }

  /** A store changes exactly four bytes of the area, wherever a page ends. */
  lemma StoreAtBytes(s: State, x: nat, v: bv32, y: nat)
    requires x + 4 <= AREA_SIZE && y < AREA_SIZE
    ensures AreaByte(StoreAt(s, x, v), y) == if x <= y < x + 4 then IntByte(v, y - x) else AreaByte(s, y)
  {
    hide AreaByte, PutAreaByte, IntByte;
    var s1 := PutAreaByte(s, x, IntByte(v, 0));
    var s2 := PutAreaByte(s1, x + 1, IntByte(v, 1));
    var s3 := PutAreaByte(s2, x + 2, IntByte(v, 2));
    PutAreaByteAt(s, x, IntByte(v, 0), y);
    PutAreaByteAt(s1, x + 1, IntByte(v, 1), y);
    PutAreaByteAt(s2, x + 2, IntByte(v, 2), y);
    PutAreaByteAt(s3, x + 3, IntByte(v, 3), y);
  }

  /** What was stored is loaded again, at every offset. */
  lemma LoadStored(s: State, x: nat, v: bv32)
    requires x + 4 <= AREA_SIZE
    ensures LoadAt(StoreAt(s, x, v), x) == v
  {
    hide AreaByte, StoreAt, IntByte, IntOf;
    StoreAtBytes(s, x, v, x);
    StoreAtBytes(s, x, v, x + 1);
    StoreAtBytes(s, x, v, x + 2);
    StoreAtBytes(s, x, v, x + 3);
    IntOfBytes(v);
  }

  // ---- Inside a page ------------------------------------------------------------------

  lemma AreaPosition(q: nat, o: nat)
    requires q < MAX_PAGES && o < PAGE_SIZE
    ensures q * PAGE_SIZE + o < AREA_SIZE
      && (q * PAGE_SIZE + o) / PAGE_SIZE == q && (q * PAGE_SIZE + o) % PAGE_SIZE == o
  {
  }

  /** At the other offsets a store is the store of the model. */
  lemma StoreInsidePage(s: State, q: nat, o: nat, v: bv32)
    requires q < MAX_PAGES && o + 4 <= PAGE_SIZE
    ensures q * PAGE_SIZE + o + 4 <= AREA_SIZE
    ensures StoreAt(s, q * PAGE_SIZE + o, v) == SetPage(s, q, WriteInt(s.mem[q], o, v))
    ensures LoadAt(s, q * PAGE_SIZE + o) == ReadInt(s.mem[q], o)
  {
    hide PutByte, IntByte, ByteAt;
    AreaPosition(q, o);
    AreaPosition(q, o + 1);
    AreaPosition(q, o + 2);
    AreaPosition(q, o + 3);
    var x := q * PAGE_SIZE + o;
    var p1: Page := PutByte(s.mem[q], o, IntByte(v, 0));
    var p2: Page := PutByte(p1, o + 1, IntByte(v, 1));
    var p3: Page := PutByte(p2, o + 2, IntByte(v, 2));
    assert PutAreaByte(s, x, IntByte(v, 0)) == SetPage(s, q, p1);
    assert PutAreaByte(SetPage(s, q, p1), x + 1, IntByte(v, 1)) == SetPage(s, q, p2);
    assert PutAreaByte(SetPage(s, q, p2), x + 2, IntByte(v, 2)) == SetPage(s, q, p3);
  }

  // ---- Across the end of a page -------------------------------------------------------

  /** A store at one of the last three offsets changes the rest of its page and the first
      bytes of the next page of the area, whatever that page is used for. */
  lemma StoreSpills(s: State, q: nat, o: nat, v: bv32, p: nat, i: nat)
    requires q + 1 < MAX_PAGES && PAGE_SIZE - 4 < o < PAGE_SIZE && p < MAX_PAGES && i < PAGE_SIZE
    ensures q * PAGE_SIZE + o + 4 <= AREA_SIZE
    ensures ByteAt(StoreAt(s, q * PAGE_SIZE + o, v).mem[p], i) ==
      if p == q && i >= o then IntByte(v, i - o)
      else if p == q + 1 && i < o + 4 - PAGE_SIZE then IntByte(v, i + PAGE_SIZE - o)
      else ByteAt(s.mem[p], i)
  {
    hide ByteAt, StoreAt, IntByte;
    AreaPosition(p, i);
    StoreAtBytes(s, q * PAGE_SIZE + o, v, p * PAGE_SIZE + i);
    if p < q {
      Earlier(p, q);
    } else if p > q + 1 {
      Earlier(q + 1, p);
    }
  }

  lemma Earlier(p: nat, q: nat)
    requires p < q
    ensures p * PAGE_SIZE + PAGE_SIZE <= q * PAGE_SIZE
  {
  }

  ghost predicate OtherPagesKept(s: State, s': State, q: nat) {
    forall p :: 0 <= p < MAX_PAGES && p != q ==> s'.mem[p] == s.mem[p]
  }

  ghost predicate KeepsToPage(s: State, q: nat, o: nat, v: bv32)
    requires q + 1 < MAX_PAGES && o < PAGE_SIZE
  {
    AreaPosition(q, o);
    OtherPagesKept(s, StoreAt(s, q * PAGE_SIZE + o, v), q)
  }

  /** Stores keep to their page exactly at the offsets that leave room for an int; only there
      can a write be private to one address space. */
  lemma StoreKeepsToPageIff(s: State, q: nat, o: nat)
    requires q + 1 < MAX_PAGES && o < PAGE_SIZE
    ensures q * PAGE_SIZE + o + 4 <= AREA_SIZE
    ensures (forall v :: KeepsToPage(s, q, o, v)) <==> o + 4 <= PAGE_SIZE
  {
    hide KeepsToPage;
    AreaPosition(q, o);
    if o + 4 <= PAGE_SIZE {
      forall v ensures KeepsToPage(s, q, o, v) { InsideKeepsToPage(s, q, o, v); }
    } else {
      var v := SpillsAway(s, q, o);
    }
  }

  lemma InsideKeepsToPage(s: State, q: nat, o: nat, v: bv32)
    requires q + 1 < MAX_PAGES && o + 4 <= PAGE_SIZE
    ensures KeepsToPage(s, q, o, v)
  {
    hide StoreAt, WriteInt;
    StoreInsidePage(s, q, o, v);
  }

  /** Some value reaches the next page. */
  lemma SpillsAway(s: State, q: nat, o: nat) returns (v: bv32)
    requires q + 1 < MAX_PAGES && PAGE_SIZE - 4 < o < PAGE_SIZE
    ensures q * PAGE_SIZE + o + 4 <= AREA_SIZE
    ensures StoreAt(s, q * PAGE_SIZE + o, v).mem[q + 1] != s.mem[q + 1]
    ensures !KeepsToPage(s, q, o, v)
  {
    hide ByteAt, StoreAt, IntByte;
    var i := o + 3 - PAGE_SIZE;
    TopBytes();
    v := if ByteAt(s.mem[q + 1], i) == 0 then 0xFF00_0000 else 0;
    StoreSpills(s, q, o, v, q + 1, i);
  }

  lemma TopBytes()
    ensures IntByte(0, 3) == 0 && IntByte(0xFF00_0000, 3) == 0xFF
  {
  }

  /** If the next page is free, some store leaves it dirty, and the next allocation hands out
      a page that is not blank. */
  lemma SpillBreaksInv(s: State, q: nat, o: nat) returns (v: bv32)
    requires Inv(s) && q + 1 < MAX_PAGES && PAGE_SIZE - 4 < o < PAGE_SIZE && !s.inUse[q + 1]
    ensures q * PAGE_SIZE + o + 4 <= AREA_SIZE && !Inv(StoreAt(s, q * PAGE_SIZE + o, v))
  {
    v := SpillsAway(s, q, o);
    StoreKeepsUse(s, q * PAGE_SIZE + o, v);
    hide StoreAt;
  }

  lemma StoreKeepsUse(s: State, x: nat, v: bv32)
    requires x + 4 <= AREA_SIZE
    ensures StoreAt(s, x, v).inUse == s.inUse
  {
    hide PutByte, IntByte;
  }

  // ---- Whole calls, at any offset -----------------------------------------------------

  /** A call returns, ends with a fatal fault, finds no free page, or follows a pointer that
      runs past the end of the area. */
  datatype Access = Done(s: State, value: bv32) | Refused | NoMemory | PastArea

  /** The walk of vms_write, with the call of the handler for an entry that is not writable. */
  function EntryToWrite(s: State, a: Address): Walk
    requires a.Ok()
  {
    match Mmu(s, a, s.root, 2, false)
    case FatalWalk => FatalWalk
    case NoMemoryWalk => NoMemoryWalk
    case Found(s1, t) =>
      if At(s1, t)[a.i0].w then Found(s1, t) else
      match Fault(s1, t, a.i0)
      case None => NoMemoryWalk
      case Some(s2) => if At(s2, t)[a.i0].w then Found(s2, t) else FatalWalk
  }

  /** The walk of vms_read. */
  function EntryToRead(s: State, a: Address): Walk
    requires a.Ok()
  {
    match Mmu(s, a, s.root, 2, false)
    case FatalWalk => FatalWalk
    case NoMemoryWalk => NoMemoryWalk
    case Found(s1, t) =>
      if At(s1, t)[a.i0].r then Found(s1, t) else
      match Fault(s1, t, a.i0)
      case None => NoMemoryWalk
      case Some(s2) => if At(s2, t)[a.i0].r then Found(s2, t) else FatalWalk
  }

  /** The translated address, as a position in the area. */
  function Position(s: State, t: int, a: Address): int
    requires a.Ok()
  {
    Target(s, At(s, t)[a.i0]) * PAGE_SIZE + a.offset
  }

  function WriteAt(s: State, a: Address, v: bv32): Access
    requires a.Ok()
  {
    match EntryToWrite(s, a)
    case FatalWalk => Refused
    case NoMemoryWalk => NoMemory
    case Found(s1, t) =>
      var x := Position(s1, t, a);
      if 0 <= x && x + 4 <= AREA_SIZE then Done(StoreAt(s1, x, v), v) else PastArea
  }

  function ReadAt(s: State, a: Address): Access
    requires a.Ok()
  {
    match EntryToRead(s, a)
    case FatalWalk => Refused
    case NoMemoryWalk => NoMemory
    case Found(s1, t) =>
      var x := Position(s1, t, a);
      if 0 <= x && x + 4 <= AREA_SIZE then Done(s1, LoadAt(s1, x)) else PastArea
  }

  /** Finding the entry shows the same memory and keeps the invariant, whatever the offset. */
  ghost predicate FindsEntry(s: State, a: Address, w: Walk)
    requires a.Ok()
  {
    w.Found? ==>
      && Inv(w.s) && View(w.s) == View(s) && w.s.root == s.root
      && RoleAt(w.s, w.table).Low? && At(w.s, w.table)[a.i0].v && Frame(Target(w.s, At(w.s, w.table)[a.i0]))
  }

  lemma EntryIsFound(s: State, a: Address)
    requires Inv(s) && a.Ok()
    ensures FindsEntry(s, a, EntryToWrite(s, a)) && FindsEntry(s, a, EntryToRead(s, a))
  {
    hide Inv, Fault, Mmu, View, LeafTable, FindsEntry;
    var w := Mmu(s, a, s.root, 2, false);
    NoEntry(s, a);
    WalkFindsEntry(s, a);
    if w.Found? { HandlerFindsEntry(s, a, w.s, w.table); }
  }

  lemma NoEntry(s: State, a: Address)
    requires a.Ok()
    ensures FindsEntry(s, a, FatalWalk) && FindsEntry(s, a, NoMemoryWalk)
  {
  }

  lemma WalkFindsEntry(s: State, a: Address)
    requires Inv(s) && a.Ok()
    ensures var w := Mmu(s, a, s.root, 2, false);
      FindsEntry(s, a, w) && (w.Found? ==>
        && Inv(w.s) && View(w.s) == View(s) && w.s.root == s.root && LeafTable(w.s, s.root, a) == Some(w.table)
        && At(w.s, w.table)[a.i0].v)
  {
    hide Inv, Mmu, View, LeafTable, Lookup, Claims, RefSum, ViewLeaf;
    WalkWorks(s, a);
    var w := Mmu(s, a, s.root, 2, false);
    if w.Found? {
      FoundIsValid(w.s, w.table, a.i0);
      EntryTarget(w.s, w.table, a.i0);
    }
  }

  lemma HandlerFindsEntry(s: State, a: Address, s1: State, p: int)
    requires Inv(s1) && View(s1) == View(s) && s1.root == s.root && a.Ok() && LeafTable(s1, s.root, a) == Some(p)
    requires At(s1, p)[a.i0].v
    ensures Fault(s1, p, a.i0).Some? ==> FindsEntry(s, a, Found(Fault(s1, p, a.i0).value, p))
  {
    hide Inv, Fault, View, LeafTable, Claims, RefSum;
    HandlerWorks(s1, a, p);
    if Fault(s1, p, a.i0).Some? {
      var s2 := Fault(s1, p, a.i0).value;
      FoundIsValid(s2, p, a.i0);
      EntryTarget(s2, p, a.i0);
    }
  }

  lemma EntryTarget(s: State, p: int, k: nat)
    requires Inv(s) && RoleAt(s, p).Low? && k < NUM_PTE_ENTRIES && At(s, p)[k].v
    ensures Frame(Target(s, At(s, p)[k]))
  {
    InvFacts(s);
    hide Inv, Tree;
    EntryFacts(s, p, k);
  }

  lemma AccessByEntry(s: State, a: Address, v: bv32)
    requires Accessible(a)
    ensures Write(s, a, v) == match EntryToWrite(s, a)
      case Found(s1, t) => Returned(Store(s1, t, a, v), v)
      case FatalWalk => Fatal
      case NoMemoryWalk => OutOfMemory
    ensures Read(s, a) == match EntryToRead(s, a)
      case Found(s1, t) => Returned(s1, Load(s1, t, a))
      case FatalWalk => Fatal
      case NoMemoryWalk => OutOfMemory
  {
    hide Mmu, Fault, Store, Load;
  }

  lemma AccessInside(s: State, a: Address, t: int, v: bv32)
    requires Accessible(a) && Frame(Target(s, At(s, t)[a.i0]))
    ensures 0 <= Position(s, t, a) && Position(s, t, a) + 4 <= AREA_SIZE
    ensures StoreAt(s, Position(s, t, a), v) == Store(s, t, a, v) && LoadAt(s, Position(s, t, a)) == Load(s, t, a)
  {
    hide StoreAt, LoadAt, WriteInt, ReadInt;
    StoreInsidePage(s, Target(s, At(s, t)[a.i0]), a.offset, v);
  }

  /** Where an int fits into its page, this is the write of the refinement. */
  lemma WriteAtInside(s: State, a: Address, v: bv32)
    requires Inv(s) && Accessible(a)
    ensures WriteAt(s, a, v) == match Write(s, a, v)
      case Returned(s', x) => Done(s', x)
      case Fatal => Refused
      case OutOfMemory => NoMemory
  {
    hide Inv, View, EntryToWrite, EntryToRead, Write, Read, Store, Load, StoreAt, LoadAt, Position;
    EntryIsFound(s, a);
    AccessByEntry(s, a, v);
    var w := EntryToWrite(s, a);
    if w.Found? { AccessInside(w.s, a, w.table, v); }
  }

  lemma ReadAtInside(s: State, a: Address)
    requires Inv(s) && Accessible(a)
    ensures ReadAt(s, a) == match Read(s, a)
      case Returned(s', x) => Done(s', x)
      case Fatal => Refused
      case OutOfMemory => NoMemory
  {
    hide Inv, View, EntryToWrite, EntryToRead, Write, Read, Store, Load, StoreAt, LoadAt, Position;
    EntryIsFound(s, a);
    AccessByEntry(s, a, 0);
    var w := EntryToRead(s, a);
    if w.Found? { AccessInside(w.s, a, w.table, 0); }
  }

  ghost predicate SameEnd(w: Walk, o: Outcome) {
    match w
    case Found(s, _) => o.Returned?
    case FatalWalk => o.Fatal?
    case NoMemoryWalk => o.OutOfMemory?
  }

  /** Which page an access finds does not depend on the byte offset. */
  lemma OffsetPlaysNoPart(s: State, a: Address, v: bv32)
    requires a.Ok()
    ensures var a0 := Address(a.i2, a.i1, a.i0, 0);
      && EntryToWrite(s, a) == EntryToWrite(s, a0) && SameEnd(EntryToWrite(s, a), Write(s, a0, v))
      && EntryToRead(s, a) == EntryToRead(s, a0) && SameEnd(EntryToRead(s, a), Read(s, a0))
      && (EntryToRead(s, a).Found? ==> EntryToRead(s, a).s == Read(s, a0).s)
  {
    hide Fault, Store, Load, Mmu;
    var a0 := Address(a.i2, a.i1, a.i0, 0);
    SameWalk(s, a, a0, s.root, 2, false);
    AccessByEntry(s, a0, v);
  }

  lemma {:induction false} SameWalk(s: State, a: Address, a0: Address, table: int, level: nat, faulted: bool)
    requires a.Ok() && level < 3 && a0 == Address(a.i2, a.i1, a.i0, 0)
    ensures Mmu(s, a, table, level, faulted) == Mmu(s, a0, table, level, faulted)
    decreases level, !faulted
  {
    hide Fault;
    var e := At(s, table)[a.Index(level)];
    if ShouldGenerateFault(level, e) {
      if !faulted && Fault(s, table, a.Index(level)).Some? {
        SameWalk(Fault(s, table, a.Index(level)).value, a, a0, table, level, true);
      }
    } else if level != 0 {
      SameWalk(s, a, a0, Target(s, e), level - 1, false);
    }
  }

  /** A call of vms_write, at any offset, changes exactly four bytes of the area after a walk
      that nobody can see. */
  lemma WriteAtBytes(s: State, a: Address, v: bv32, y: nat)
    requires Inv(s) && a.Ok() && WriteAt(s, a, v).Done? && y < AREA_SIZE
    ensures EntryToWrite(s, a).Found? && FindsEntry(s, a, EntryToWrite(s, a)) && WriteAt(s, a, v).value == v
    ensures var w := EntryToWrite(s, a);
      var x := Target(w.s, At(w.s, w.table)[a.i0]) * PAGE_SIZE + a.offset;
      AreaByte(WriteAt(s, a, v).s, y) == if x <= y < x + 4 then IntByte(v, y - x) else AreaByte(w.s, y)
  {
    hide Inv, FindsEntry, EntryToWrite, StoreAt, AreaByte, IntByte;
    EntryIsFound(s, a);
    var w := EntryToWrite(s, a);
    StoreAtBytes(w.s, Position(w.s, w.table, a), v, y);
  }

  /** A call of vms_read, at any offset, returns four bytes of the area, after a walk that
      nobody can see and without changing anything else. */
  lemma ReadAtBytes(s: State, a: Address, i: nat)
    requires Inv(s) && a.Ok() && ReadAt(s, a).Done? && i < 4
    ensures EntryToRead(s, a).Found? && FindsEntry(s, a, EntryToRead(s, a))
    ensures var w := EntryToRead(s, a);
      var x := Target(w.s, At(w.s, w.table)[a.i0]) * PAGE_SIZE + a.offset;
      && 0 <= x && x + i < AREA_SIZE
      && IntByte(ReadAt(s, a).value, i) == AreaByte(w.s, x + i) && ReadAt(s, a).s == w.s
  {
    hide Inv, FindsEntry, EntryToRead, AreaByte, IntByte, IntOf;
    EntryIsFound(s, a);
    var w := EntryToRead(s, a);
    var x := Position(w.s, w.table, a);
    BytesOfInt(AreaByte(w.s, x), AreaByte(w.s, x + 1), AreaByte(w.s, x + 2), AreaByte(w.s, x + 3));
  }

  /** Exactly at the last three offsets of the last page, a write that finds its page runs
      past the area. */
  lemma PastAreaIff(s: State, a: Address, v: bv32)
    requires Inv(s) && a.Ok() && EntryToWrite(s, a).Found?
    ensures var w := EntryToWrite(s, a);
      WriteAt(s, a, v).PastArea? <==> Target(w.s, At(w.s, w.table)[a.i0]) == 255 && a.offset >= 4093
  {
    hide Inv, View, EntryToWrite, StoreAt;
    EntryIsFound(s, a);
  }

  /** The same for a read. */
  lemma ReadPastAreaIff(s: State, a: Address)
    requires Inv(s) && a.Ok() && EntryToRead(s, a).Found?
    ensures var w := EntryToRead(s, a);
      ReadAt(s, a).PastArea? <==> Target(w.s, At(w.s, w.table)[a.i0]) == 255 && a.offset >= 4093
  {
    hide Inv, View, EntryToRead, LoadAt;
    EntryIsFound(s, a);
  }

  /** How a call ends at any offset: it faults or runs out of memory exactly where an access
      at the start of the page does. */
  lemma EndsAlike(s: State, a: Address, v: bv32)
    requires Inv(s) && a.Ok()
    ensures var a0 := Address(a.i2, a.i1, a.i0, 0);
      && (WriteAt(s, a, v).Refused? <==> Write(s, a0, v).Fatal?)
      && (WriteAt(s, a, v).NoMemory? <==> Write(s, a0, v).OutOfMemory?)
      && (ReadAt(s, a).Refused? <==> Read(s, a0).Fatal?)
      && (ReadAt(s, a).NoMemory? <==> Read(s, a0).OutOfMemory?)
  {
    hide EntryToWrite, EntryToRead, Write, Read, StoreAt, LoadAt, Position;
    OffsetPlaysNoPart(s, a, v);
  }

  /** Writes keep to the page they are aimed at exactly at the offsets of the refinement. */
  lemma WriteIsPrivateIff(s: State, a: Address)
    requires Inv(s) && a.Ok() && EntryToWrite(s, a).Found?
    requires var w := EntryToWrite(s, a); Target(w.s, At(w.s, w.table)[a.i0]) < MAX_PAGES - 1
    ensures var w := EntryToWrite(s, a);
      (forall v :: WriteAt(s, a, v).Done?
        && OtherPagesKept(w.s, WriteAt(s, a, v).s, Target(w.s, At(w.s, w.table)[a.i0]))) <==> Accessible(a)
  {
    hide Inv, View, EntryToWrite, StoreAt, KeepsToPage, OtherPagesKept, WriteAt, RoleAt;
    EntryIsFound(s, a);
    var w := EntryToWrite(s, a);
    var q := Target(w.s, At(w.s, w.table)[a.i0]);
    StoreKeepsToPageIff(w.s, q, a.offset);
    forall v
      ensures WriteAt(s, a, v).Done?
      ensures OtherPagesKept(w.s, WriteAt(s, a, v).s, q) <==> KeepsToPage(w.s, q, a.offset, v)
    {
      OneWrite(s, a, v);
    }
  }

  lemma OneWrite(s: State, a: Address, v: bv32)
    requires a.Ok() && EntryToWrite(s, a).Found?
    requires var w := EntryToWrite(s, a); 0 <= Target(w.s, At(w.s, w.table)[a.i0]) < MAX_PAGES - 1
    ensures var w := EntryToWrite(s, a);
      var q := Target(w.s, At(w.s, w.table)[a.i0]);
      WriteAt(s, a, v).Done? &&
        (OtherPagesKept(w.s, WriteAt(s, a, v).s, q) <==> KeepsToPage(w.s, q, a.offset, v))
  {
    hide EntryToWrite, StoreAt, OtherPagesKept;
    var w := EntryToWrite(s, a);
    AreaPosition(Target(w.s, At(w.s, w.table)[a.i0]), a.offset);
  }
}
