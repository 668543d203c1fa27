/** The page fault handler: the lazy half of copy-on-write. */
module VmsFault {
  import opened VmsPte
  import opened VmsMachine
  import opened VmsSteps
  import opened FiniteSets
  import opened Wrappers

  function Writable(e: Pte): Pte { e.(w := true, c := false) }

  /** page_fault_handler on entry `k` of table `p`; None is exit(ENOMEM). An entry without
      the custom bit is left alone. */
  function Fault(s: State, p: int, k: nat): Option<State>
    requires k < NUM_PTE_ENTRIES
  {
    var e := At(s, p)[k];
    if !e.c then Some(s)
    else if RefAt(s, Target(s, e)) == 0 then Some(Put(s, p, k, Writable(e)))
    else
      match FirstFree(s.inUse, 0)
      case None => None
      case Some(n) => Some(BreakShare(s, p, k, n))
  }

  /** The copy made by the handler: entry `k` of table `p` moves to a private copy in frame `n`. */
  function BreakShare(s: State, p: int, k: nat, n: nat): State
    requires k < NUM_PTE_ENTRIES && Frame(n)
  {
    var e := At(s, p)[k];
    var q := Target(s, e);
    var s1 := TakeData(s, n, At(s, q));
    AddRef(Put(s1, p, k, Redirect(s1, Writable(e), n)), q, -1)
  }

  lemma LastCustomKeeps(s: State, p: int, k: int)
    requires Inv(s) && Leaf(s, p, k) && s.mem[p][k].c && s.ref[LeafTarget(s, p, k)] == 0
    ensures Inv(Put(s, p, k, Writable(s.mem[p][k])))
  {
    var e := s.mem[p][k];
    var s' := Put(s, p, k, Writable(e));
    assert EntryOk(s, s.role[p], k, e);
    PutLeafFrame(s, p, k, Writable(e), {});
    LastCustomAlone(s, p, k);
    LastCustomSharing(s, p, k);
    LastCustomCounts(s, p, k);
  }

  /** With a zero counter, the only mapping of the page is this one. */
  lemma LastCustomAlone(s: State, p: int, k: int)
    requires TablesOk(s) && SharingOk(s) && CountsOk(s)
    requires Leaf(s, p, k) && s.mem[p][k].c && s.ref[LeafTarget(s, p, k)] == 0
    ensures forall t, i :: Leaf(s, t, i) && LeafTarget(s, t, i) == LeafTarget(s, p, k) ==> t == p && i == k
  {
    var q := LeafTarget(s, p, k);
    assert EntryOk(s, s.role[p], k, s.mem[p][k]);
    assert (p, k) in Customs(s, q);
    forall t, i | Leaf(s, t, i) && LeafTarget(s, t, i) == q ensures t == p && i == k {
      assert (t, i) in Customs(s, q);
      if (t, i) != (p, k) {
        assert |Customs(s, q)| >= 2 by {
          SubsetSize({(p, k), (t, i)}, Customs(s, q));
        }
      }
    }
  }

  lemma LastCustomSharing(s: State, p: int, k: int)
    requires SharingOk(s) && Leaf(s, p, k)
    requires forall t, i :: Leaf(s, t, i) && LeafTarget(s, t, i) == LeafTarget(s, p, k) ==> t == p && i == k
    ensures SharingOk(Put(s, p, k, Writable(s.mem[p][k])))
  {
    var s' := Put(s, p, k, Writable(s.mem[p][k]));
    forall t, i | Leaf(s', t, i) ensures Leaf(s, t, i) && LeafTarget(s', t, i) == LeafTarget(s, t, i) {}
    forall t, i | Leaf(s, t, i) && (t, i) != (p, k) ensures s'.mem[t][i] == s.mem[t][i] {}
  }

  lemma LastCustomCounts(s: State, p: int, k: int)
    requires CountsOk(s) && Leaf(s, p, k) && s.mem[p][k].c
    requires Frame(LeafTarget(s, p, k)) && s.ref[LeafTarget(s, p, k)] == 0
    requires forall t, i :: Leaf(s, t, i) && LeafTarget(s, t, i) == LeafTarget(s, p, k) ==> t == p && i == k
    ensures CountsOk(Put(s, p, k, Writable(s.mem[p][k])))
  {
    var e := s.mem[p][k];
    var s' := Put(s, p, k, Writable(e));
    forall q | 0 <= q < MAX_PAGES ensures s'.ref[q] == Excess(|Customs(s', q)|) {
      CustomsPut(s, p, k, Writable(e), q);
      if q == Target(s, e) {
        assert Customs(s, q) - {(p, k)} == {};
      } else {
        assert (p, k) !in Customs(s, q);
      }
    }
  }

  lemma BreakShareKeeps(s: State, p: int, k: int, n: int)
    requires Inv(s) && Fresh(s, n) && Leaf(s, p, k) && s.mem[p][k].c && s.ref[LeafTarget(s, p, k)] != 0
    ensures Inv(BreakShare(s, p, k, n))
  {
    hide FreeFramesBlank, TablesOk, SharingOk, CountsOk, UsedOk, RootsOk, LinksOk, Unmapped;
    var e := s.mem[p][k];
    LeafIsTaken(s, p, k, n);
    var data := At(s, Target(s, e));
    TakeDataKeeps(s, n, data, {});
    TakenIsUnmapped(s, n, data);
    MoveKeeps(TakeData(s, n, data), p, k, n);
  }

  lemma LeafIsTaken(s: State, p: int, k: int, n: int)
    requires FreeFramesBlank(s) && TablesOk(s) && Fresh(s, n) && Leaf(s, p, k)
    ensures p != n && Frame(LeafTarget(s, p, k)) && LeafTarget(s, p, k) != n
  {
    assert EntryOk(s, s.role[p], k, s.mem[p][k]);
  }

  /** A custom mapping moves to an unmapped data page and becomes writable. */
  lemma MoveKeeps(s: State, p: int, k: int, n: int)
    requires Inv(s) && Leaf(s, p, k) && s.mem[p][k].c && s.ref[LeafTarget(s, p, k)] != 0
    requires Frame(n) && s.role[n].Data? && Unmapped(s, n)
    ensures Inv(AddRef(Put(s, p, k, Redirect(s, Writable(s.mem[p][k]), n)), LeafTarget(s, p, k), -1))
  {
    var e := Redirect(s, Writable(s.mem[p][k]), n);
    assert EntryOk(s, s.role[p], k, s.mem[p][k]);
    PutLeafFrame(s, p, k, e, {});
    AddRefFrame(Put(s, p, k, e), LeafTarget(s, p, k), -1, {});
    MoveSharing(s, p, k, e);
    MoveCounts(s, p, k, e);
  }

  lemma MoveSharing(s: State, p: int, k: int, e: Pte)
    requires SharingOk(s) && Leaf(s, p, k) && s.mem[p][k].c && e.v && Unmapped(s, Target(s, e))
    ensures SharingOk(AddRef(Put(s, p, k, e), LeafTarget(s, p, k), -1))
  {
    PrivateSharing(s, p, k, e);
    var s1 := Put(s, p, k, e);
    var s' := AddRef(s1, LeafTarget(s, p, k), -1);
    assert s'.mem == s1.mem && s'.role == s1.role && s'.base == s1.base;
    forall t, i ensures Leaf(s', t, i) <==> Leaf(s1, t, i) {}
  }

  lemma MoveCounts(s: State, p: int, k: int, e: Pte)
    requires CountsOk(s) && Leaf(s, p, k) && s.mem[p][k].c && e.v && !e.c
    requires Frame(LeafTarget(s, p, k)) && s.ref[LeafTarget(s, p, k)] != 0
    requires Unmapped(s, Target(s, e))
    ensures CountsOk(AddRef(Put(s, p, k, e), LeafTarget(s, p, k), -1))
  {
    var q0 := LeafTarget(s, p, k);
    var s1 := Put(s, p, k, e);
    var s' := AddRef(s1, q0, -1);
    assert (p, k) in Customs(s, q0);
    forall q | 0 <= q < MAX_PAGES ensures s'.ref[q] == Excess(|Customs(s', q)|) {
      CustomsPut(s, p, k, e, q);
      assert Customs(s', q) == Customs(s1, q);
      if q != q0 { assert Customs(s, q) - {(p, k)} == Customs(s, q); }
    }
  }

  /** The handler keeps the invariant. */
  lemma FaultKeepsInv(s: State, p: int, k: int)
    requires Inv(s) && Frame(p) && IsTable(s.role[p]) && 0 <= k < NUM_PTE_ENTRIES
    ensures Fault(s, p, k).Some? ==> Inv(Fault(s, p, k).value)
  {
    assert EntryOk(s, s.role[p], k, s.mem[p][k]);
    var e := s.mem[p][k];
    if e.c {
      if RefAt(s, Target(s, e)) == 0 {
        LastCustomKeeps(s, p, k);
      } else {
        match FirstFree(s.inUse, 0)
        case None =>
        case Some(n) => BreakShareKeeps(s, p, k, n);
      }
    }
  }
}
