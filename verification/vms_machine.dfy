/** The physical side of the virtual memory system: page frames, the first-fit page
    allocator, and the shape of the page-table forest that lives in those frames. */
module VmsMachine {
  import opened Binaries
  import opened VmsPte
  import opened Wrappers

  const MAX_PAGES: nat := 256
  const NUM_PTE_ENTRIES: nat := 512

  /** A physical page, seen as its 512 words of 64 bits, each word in decoded form. */
  type Page = p: seq<Pte> | |p| == NUM_PTE_ENTRIES witness seq(NUM_PTE_ENTRIES, _ => ZERO_PTE)

  function ZeroPage(): (p: Page)
    ensures forall k :: 0 <= k < NUM_PTE_ENTRIES ==> p[k] == ZERO_PTE
  {
    seq(NUM_PTE_ENTRIES, _ => ZERO_PTE)
  }

  /** What a page frame is used for. The position of a table in its tree is part of its
      role, so that a frame never serves two positions. Roles are bookkeeping of the model:
      the program never reads them. */
  datatype Role = Unused | Root(h: nat) | Mid(h: nat, i: nat) | Low(h: nat, i: nat, j: nat) | Data

  /** `base` is the page number of the first frame; `root` is the frame of the current root
      table; `roots` lists the root tables in the order of their creation. */
  datatype MachineState = Machine(
    base: nat, mem: seq<Page>, inUse: seq<bool>, used: int, ref: seq<int>,
    root: nat, roots: seq<nat>, role: seq<Role>)

  predicate Sized(s: MachineState) {
    && |s.mem| == MAX_PAGES && |s.inUse| == MAX_PAGES && |s.ref| == MAX_PAGES
    && |s.role| == MAX_PAGES && s.root < MAX_PAGES && s.base + MAX_PAGES <= PPN_LIMIT
  }

  type State = s: MachineState | Sized(s)
    witness Machine(0, seq(MAX_PAGES, _ => ZeroPage()), seq(MAX_PAGES, _ => false), 0,
                    seq(MAX_PAGES, _ => 0), 0, [], seq(MAX_PAGES, _ => Unused))

  // ---- Frames -------------------------------------------------------------------------

  predicate Frame(p: int) { 0 <= p < MAX_PAGES }

  /** The contents of a frame; anything that is not a frame reads as zero. */
  function At(s: State, p: int): Page {
    if Frame(p) then s.mem[p] else ZeroPage()
  }

  /** The frame that an entry points to. */
  function Target(s: State, e: Pte): int { e.ppn - s.base }

  /** An entry redirected to frame `p`. */
  function Redirect(s: State, e: Pte, p: int): Pte
    requires Frame(p)
  {
    e.(ppn := s.base + p)
  }

  function RoleAt(s: State, p: int): Role {
    if Frame(p) then s.role[p] else Unused
  }

  function RefAt(s: State, p: int): int {
    if Frame(p) then s.ref[p] else 0
  }

  function SetPage(s: State, p: int, page: Page): State {
    if Frame(p) then s.(mem := s.mem[p := page]) else s
  }

  function Put(s: State, p: int, k: nat, e: Pte): State
    requires k < NUM_PTE_ENTRIES
  {
    SetPage(s, p, At(s, p)[k := e])
  }

  function AddRef(s: State, p: int, d: int): State {
    if Frame(p) then s.(ref := s.ref[p := s.ref[p] + d]) else s
  }

  // ---- Allocator ----------------------------------------------------------------------

  /** The least free frame at or above `i`. */
  function FirstFree(inUse: seq<bool>, i: nat): (r: Option<nat>)
    requires i <= |inUse|
    ensures r.Some? ==> i <= r.value < |inUse| && !inUse[r.value]
    ensures forall q :: i <= q < (if r.Some? then r.value else |inUse|) ==> inUse[q]
    decreases |inUse| - i
  {
    if i == |inUse| then None
    else if !inUse[i] then Some(i)
    else FirstFree(inUse, i + 1)
  }

  function Take(s: State, p: nat, role: Role): State
    requires Frame(p)
  {
    s.(inUse := s.inUse[p := true], used := s.used + 1, role := s.role[p := role])
  }

  /** Allocation of the first free frame for a given use; None is exit(ENOMEM). */
  function Alloc(s: State, role: Role): Option<(State, nat)> {
    match FirstFree(s.inUse, 0)
    case None => None
    case Some(p) => Some((Take(s, p, role), p))
  }

  // ---- Well-formedness ----------------------------------------------------------------

  predicate IsTable(r: Role) { r.Root? || r.Mid? || r.Low? }

  /** The role of the frame behind entry `k` of a table. */
  function ChildRole(r: Role, k: nat): Role
    requires IsTable(r)
  {
    match r
    case Root(h) => Mid(h, k)
    case Mid(h, i) => Low(h, i, k)
    case Low(_, _, _) => Data
  }

  /** A free frame is blank: it has no role, no references, and holds zeros. */
  ghost predicate FreeFramesBlank(s: State) {
    forall p :: 0 <= p < MAX_PAGES && !s.inUse[p] ==>
      s.role[p] == Unused && s.mem[p] == ZeroPage() && s.ref[p] == 0
  }

  predicate EntryOk(s: State, r: Role, k: nat, e: Pte)
    requires IsTable(r)
  {
    && (e.c ==> e.v)
    && (e.v ==> Frame(Target(s, e)) && RoleAt(s, Target(s, e)) == ChildRole(r, k))
    && (e.v && !r.Low? ==> !e.r && !e.w && !e.c)
    && (e.c ==> !e.w)
  }

  /** Entries of tables lead one level down, to the position their index says. */
  ghost predicate TablesOk(s: State) {
    forall p, k :: 0 <= p < MAX_PAGES && IsTable(s.role[p]) && 0 <= k < NUM_PTE_ENTRIES ==>
      EntryOk(s, s.role[p], k, s.mem[p][k])
  }

  predicate Leaf(s: State, p: int, k: int) {
    Frame(p) && s.role[p].Low? && 0 <= k < NUM_PTE_ENTRIES && s.mem[p][k].v
  }

  function LeafTarget(s: State, p: int, k: int): int
    requires Leaf(s, p, k)
  {
    Target(s, s.mem[p][k])
  }

  /** A page mapped by a writable entry has no other mapping; a page mapped by a custom
      entry is mapped by custom entries only. */
  ghost predicate SharingOk(s: State) {
    forall p, k, p', k' ::
      Leaf(s, p, k) && Leaf(s, p', k') && LeafTarget(s, p, k) == LeafTarget(s, p', k') ==>
        && (s.mem[p][k].w ==> p == p' && k == k')
        && (s.mem[p][k].c ==> s.mem[p'][k'].c)
  }

  /** The custom leaf entries that map frame `q`. */
  ghost function Customs(s: State, q: int): set<(int, int)> {
    set p, k | 0 <= p < MAX_PAGES && 0 <= k < NUM_PTE_ENTRIES
               && Leaf(s, p, k) && s.mem[p][k].c && LeafTarget(s, p, k) == q :: (p, k)
  }

  function Excess(n: nat): nat { if n == 0 then 0 else n - 1 }

  /** Each counter is the number of custom mappings beyond the first. */
  ghost predicate CountsOk(s: State) {
    forall q :: 0 <= q < MAX_PAGES ==> s.ref[q] == Excess(|Customs(s, q)|)
  }

  ghost function FramesInUse(s: State): set<int> {
    set p | 0 <= p < MAX_PAGES && s.inUse[p]
  }

  ghost predicate UsedOk(s: State) { s.used == |FramesInUse(s)| }

  /** Handles and root tables correspond one to one, and the current root is one of them. */
  ghost predicate RootsOk(s: State) {
    && (forall h :: 0 <= h < |s.roots| ==> Frame(s.roots[h]) && s.role[s.roots[h]] == Root(h))
    && (forall p :: 0 <= p < MAX_PAGES && s.role[p].Root? ==> s.role[p].h < |s.roots| && s.roots[s.role[p].h] == p)
    && s.role[s.root].Root?
  }

  /** Frame `p` hangs below a table, at the position its role names. */
  ghost predicate Linked(s: State, p: int)
    requires Frame(p)
  {
    && (s.role[p].Mid? ==> exists t :: LinksTo(s, t, Root(s.role[p].h), s.role[p].i, p))
    && (s.role[p].Low? ==> exists t :: LinksTo(s, t, Mid(s.role[p].h, s.role[p].i), s.role[p].j, p))
  }

  predicate LinksTo(s: State, t: int, r: Role, k: int, p: int) {
    Frame(t) && s.role[t] == r && 0 <= k < NUM_PTE_ENTRIES && s.mem[t][k].v && Target(s, s.mem[t][k]) == p
  }

  /** Every table is linked, except possibly the ones in `open` that are still being filled. */
  ghost predicate LinksOk(s: State, open: set<int>) {
    forall p :: 0 <= p < MAX_PAGES && p !in open ==> Linked(s, p)
  }

  ghost predicate Building(s: State, open: set<int>) {
    && FreeFramesBlank(s) && TablesOk(s) && SharingOk(s) && CountsOk(s) && UsedOk(s) && RootsOk(s)
    && LinksOk(s, open)
  }

  /** The invariant of the system between calls. */
  ghost predicate Inv(s: State) { Building(s, {}) }
}
