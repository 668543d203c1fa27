/** The sequential hash table: its lists, the map they stand for, and the table itself. */
module PhtTable {
  import opened Wrappers
  import opened PhtHash
  import opened PhtLists

  // ---- As lists -----------------------------------------------------------------------

  /** One list per bucket. */
  type Lists = l: seq<seq<Pair>> | |l| == CAPACITY witness seq(CAPACITY, _ => [])

  function NoLists(): Lists { seq(CAPACITY, _ => []) }

  function Add(ls: Lists, k: Key, v: nat): Lists { ls[Bucket(k) := Added(ls[Bucket(k)], k, v)] }

  /** A sequence of adds, first one first. */
  function AddAll(ls: Lists, log: seq<Pair>): Lists {
    if log == [] then ls else
    var last := log[|log| - 1];
    Add(AddAll(ls, log[..|log| - 1]), last.0, last.1)
  }

  function Lookup(ls: Lists, k: Key): Option<nat> { Find(ls[Bucket(k)], k) }

  // ---- As a map -----------------------------------------------------------------------

  lemma {:induction false} FindReplaced(l: seq<Pair>, k: Key, v: nat, k': Key)
    ensures Find(Replace(l, k, v), k') == if k' == k && Find(l, k).Some? then Some(v) else Find(l, k')
  {
    if l != [] {
      if l[0].0 == k {
        assert Replace(l, k, v)[1..] == l[1..];
      } else {
        FindReplaced(l[1..], k, v, k');
        assert Replace(l, k, v)[1..] == Replace(l[1..], k, v);
      }
    }
  }

  /** An add changes what is found for its key, and nothing else. */
  lemma AddIsUpdate(ls: Lists, k: Key, v: nat, k': Key)
    ensures Lookup(Add(ls, k, v), k') == if k' == k then Some(v) else Lookup(ls, k')
  {
    var l := ls[Bucket(k)];
    if Bucket(k') == Bucket(k) {
      if Find(l, k).Some? {
        FindReplaced(l, k, v, k');
      } else {
        assert ([(k, v)] + l)[1..] == l;
      }
    }
  }

  /** The same adds on a map. */
  function MapOf(log: seq<Pair>): map<Key, nat> {
    if log == [] then map[] else MapOf(log[..|log| - 1])[log[|log| - 1].0 := log[|log| - 1].1]
  }

  function MapFind(m: map<Key, nat>, k: Key): Option<nat> { if k in m then Some(m[k]) else None }

  /** Whatever has been added, the table answers like a map with the same updates. */
  lemma {:induction false} TableIsMap(log: seq<Pair>, k: Key)
    ensures Lookup(AddAll(NoLists(), log), k) == MapFind(MapOf(log), k)
  {
    if log != [] {
      var h, last := log[..|log| - 1], log[|log| - 1];
      TableIsMap(h, k);
      AddIsUpdate(AddAll(NoLists(), h), last.0, last.1, k);
    }
  }

  // ---- Each key once, in its bucket ---------------------------------------------------

  /** The keys of one list are distinct and belong there. */
  ghost predicate ListOk(l: seq<Pair>, b: nat) {
    && (forall i :: 0 <= i < |l| ==> Bucket(l[i].0) == b)
    && (forall i, j :: 0 <= i < j < |l| ==> l[i].0 != l[j].0)
  }

  ghost predicate KeysOk(ls: Lists) { forall b :: 0 <= b < CAPACITY ==> ListOk(ls[b], b) }

  lemma {:induction false} ReplaceKeepsKeys(l: seq<Pair>, k: Key, v: nat)
    ensures forall i :: 0 <= i < |l| ==> Replace(l, k, v)[i].0 == l[i].0
  {
    if l != [] && l[0].0 != k {
      ReplaceKeepsKeys(l[1..], k, v);
      assert forall i :: 0 < i < |l| ==> Replace(l, k, v)[i] == Replace(l[1..], k, v)[i - 1];
    }
  }

  lemma {:induction false} NotFound(l: seq<Pair>, k: Key)
    requires Find(l, k).None?
    ensures forall i :: 0 <= i < |l| ==> l[i].0 != k
  {
    if l != [] {
      NotFound(l[1..], k);
      assert forall i :: 0 < i < |l| ==> l[i] == l[1..][i - 1];
    }
  }

  lemma AddedKeepsList(l: seq<Pair>, k: Key, v: nat)
    requires ListOk(l, Bucket(k))
    ensures ListOk(Added(l, k, v), Bucket(k))
  {
    if Find(l, k).Some? { ReplaceKeepsKeys(l, k, v); } else { NotFound(l, k); }
  }

  lemma AddKeepsKeys(ls: Lists, k: Key, v: nat)
    requires KeysOk(ls)
    ensures KeysOk(Add(ls, k, v))
  {
    AddedKeepsList(ls[Bucket(k)], k, v);
  }

  lemma {:induction false} AddAllKeepsKeys(log: seq<Pair>)
    ensures KeysOk(AddAll(NoLists(), log))
  {
    if log != [] {
      AddAllKeepsKeys(log[..|log| - 1]);
      AddKeepsKeys(AddAll(NoLists(), log[..|log| - 1]), log[|log| - 1].0, log[|log| - 1].1);
    }
  }

  /** After any adds, a key that sits at two places sits at one, and that is in its bucket. */
  lemma KeySitsOnce(log: seq<Pair>, b: nat, i: nat, c: nat, j: nat)
    requires var ls := AddAll(NoLists(), log);
      b < CAPACITY && c < CAPACITY && i < |ls[b]| && j < |ls[c]| && ls[b][i].0 == ls[c][j].0
    ensures b == c == Bucket(AddAll(NoLists(), log)[b][i].0) && i == j
  {
    AddAllKeepsKeys(log);
    var ls := AddAll(NoLists(), log);
    assert ListOk(ls[b], b) && ListOk(ls[c], c);
  }

  // ---- The table in memory ------------------------------------------------------------

  datatype Memory = Memory(nodes: Nodes, heads: seq<Link>)

  /** Every key along the list hashes to its bucket. */
  predicate InBucket(nodes: Nodes, p: Link, b: nat)
    requires Reaches(nodes, p)
    decreases Rank(p)
  {
    p.Some? ==> Bucket(nodes[p.value].key) == b && InBucket(nodes, nodes[p.value].next, b)
  }

  /** Node `n` is not on the list. */
  predicate Avoids(nodes: Nodes, p: Link, n: nat)
    requires Reaches(nodes, p)
    decreases Rank(p)
  {
    p.Some? ==> p.value != n && Avoids(nodes, nodes[p.value].next, n)
  }

  predicate MemoryOk(m: Memory) {
    && |m.heads| == CAPACITY
    && forall b :: 0 <= b < CAPACITY ==> Reaches(m.nodes, m.heads[b]) && InBucket(m.nodes, m.heads[b], b)
  }

  function ListsOf(m: Memory): (ls: Lists)
    requires MemoryOk(m)
  {
    seq(CAPACITY, b requires 0 <= b < CAPACITY => Entries(m.nodes, m.heads[b]))
  }

  lemma {:induction false} InBucketKept(nodes: Nodes, nodes': Nodes, p: Link, b: nat)
    requires Reaches(nodes, p) && SameAlong(nodes, nodes', p) && InBucket(nodes, p, b)
    ensures Reaches(nodes', p) && InBucket(nodes', p, b)
    decreases Rank(p)
  {
    if p.Some? { InBucketKept(nodes, nodes', nodes[p.value].next, b); }
  }

  /** A change at a node of another bucket, or at a node that is not on the list, is not seen. */
  lemma {:induction false} ChangeElsewhere(nodes: Nodes, nodes': Nodes, p: Link, b: nat, n: nat)
    requires Reaches(nodes, p) && InBucket(nodes, p, b) && n < |nodes| <= |nodes'|
    requires forall i :: 0 <= i < |nodes| && i != n ==> nodes'[i] == nodes[i]
    requires Bucket(nodes[n].key) != b || Avoids(nodes, p, n)
    ensures SameAlong(nodes, nodes', p)
    decreases Rank(p)
  {
    if p.Some? { ChangeElsewhere(nodes, nodes', nodes[p.value].next, b, n); }
  }

  lemma {:induction false} YoungNodeAvoided(nodes: Nodes, p: Link, n: nat)
    requires Reaches(nodes, p) && n >= Rank(p)
    ensures Avoids(nodes, p, n)
    decreases Rank(p)
  {
    if p.Some? { YoungNodeAvoided(nodes, nodes[p.value].next, n); }
  }

  lemma {:induction false} AvoidsKept(nodes: Nodes, nodes': Nodes, p: Link, n: nat)
    requires Reaches(nodes, p) && SameAlong(nodes, nodes', p) && Avoids(nodes, p, n)
    ensures Reaches(nodes', p) && Avoids(nodes', p, n)
    decreases Rank(p)
  {
    if p.Some? { AvoidsKept(nodes, nodes', nodes[p.value].next, n); }
  }

  // ---- The four writes ----------------------------------------------------------------

  /** What a write leaves alone: the lists of all buckets but one. */
  ghost predicate OtherListsSame(m: Memory, m': Memory, b: nat)
    requires MemoryOk(m)
  {
    && |m'.heads| == |m.heads|
    && forall c :: 0 <= c < CAPACITY && c != b ==> m'.heads[c] == m.heads[c] && SameAlong(m.nodes, m'.nodes, m.heads[c])
  }

  /** If one list becomes the old one with `k` added, and the others stay, then the table is
      the old one with `k` added. */
  lemma OneListAdded(m: Memory, m': Memory, k: Key, v: nat)
    requires MemoryOk(m) && OtherListsSame(m, m', Bucket(k))
    requires Reaches(m'.nodes, m'.heads[Bucket(k)]) && InBucket(m'.nodes, m'.heads[Bucket(k)], Bucket(k))
    requires Entries(m'.nodes, m'.heads[Bucket(k)]) == Added(Entries(m.nodes, m.heads[Bucket(k)]), k, v)
    ensures MemoryOk(m') && ListsOf(m') == Add(ListsOf(m), k, v)
  {
    forall c | 0 <= c < CAPACITY && c != Bucket(k)
      ensures Reaches(m'.nodes, m'.heads[c]) && InBucket(m'.nodes, m'.heads[c], c)
      ensures Entries(m'.nodes, m'.heads[c]) == Entries(m.nodes, m.heads[c])
    {
      SameList(m.nodes, m'.nodes, m.heads[c]);
      InBucketKept(m.nodes, m'.nodes, m.heads[c], c);
    }
  }

  lemma AllListsSame(m: Memory, m': Memory)
    requires MemoryOk(m) && m'.heads == m.heads
    requires forall c :: 0 <= c < CAPACITY ==> SameAlong(m.nodes, m'.nodes, m.heads[c])
    ensures MemoryOk(m') && ListsOf(m') == ListsOf(m)
  {
    forall c | 0 <= c < CAPACITY
      ensures Reaches(m'.nodes, m'.heads[c]) && InBucket(m'.nodes, m'.heads[c], c)
      ensures Entries(m'.nodes, m'.heads[c]) == Entries(m.nodes, m.heads[c])
    {
      SameList(m.nodes, m'.nodes, m.heads[c]);
      InBucketKept(m.nodes, m'.nodes, m.heads[c], c);
    }
  }

  /** list_entry->value = value, where the search has found the key. */
  lemma ValueWritten(m: Memory, i: nat, k: Key, v: nat)
    requires MemoryOk(m) && i < |m.nodes| && m.nodes[i].key == k
    requires Passed(m.nodes, m.heads[Bucket(k)], Some(i), k)
    ensures var m' := m.(nodes := SetValue(m.nodes, i, v));
      MemoryOk(m') && ListsOf(m') == Add(ListsOf(m), k, v) && OtherListsSame(m, m', Bucket(k))
  {
    var nodes' := SetValue(m.nodes, i, v);
    forall c | 0 <= c < CAPACITY && c != Bucket(k) ensures SameAlong(m.nodes, nodes', m.heads[c]) {
      ChangeElsewhere(m.nodes, nodes', m.heads[c], c, i);
    }
    SetValueReplaces(m.nodes, m.heads[Bucket(k)], i, k, v);
    SetValueInBucket(m.nodes, m.heads[Bucket(k)], i, v, Bucket(k));
    OneListAdded(m, m.(nodes := nodes'), k, v);
  }

  lemma {:induction false} SetValueInBucket(nodes: Nodes, p: Link, i: nat, v: nat, b: nat)
    requires Reaches(nodes, p) && InBucket(nodes, p, b) && i < |nodes|
    ensures InBucket(SetValue(nodes, i, v), p, b)
    decreases Rank(p)
  {
    if p.Some? { SetValueInBucket(nodes, nodes[p.value].next, i, v, b); }
  }

  function NewNode(nodes: Nodes, k: Key, v: nat): (r: Nodes) {
    nodes + [Node(k, v, None)]
  }

  /** A new node is on no list. */
  lemma NodeAllocated(m: Memory, k: Key, v: nat)
    requires MemoryOk(m)
    ensures var m' := m.(nodes := NewNode(m.nodes, k, v));
      && MemoryOk(m') && ListsOf(m') == ListsOf(m)
      && (forall c :: 0 <= c < CAPACITY ==>
            SameAlong(m.nodes, m'.nodes, m.heads[c]) && Avoids(m'.nodes, m'.heads[c], |m.nodes|))
  {
    var m' := m.(nodes := NewNode(m.nodes, k, v));
    forall c | 0 <= c < CAPACITY ensures SameAlong(m.nodes, m'.nodes, m.heads[c]) {
      OlderIsSame(m.nodes, m'.nodes, m.heads[c]);
    }
    AllListsSame(m, m');
    forall c | 0 <= c < CAPACITY ensures Avoids(m'.nodes, m'.heads[c], |m.nodes|) {
      YoungNodeAvoided(m'.nodes, m'.heads[c], |m.nodes|);
    }
  }

  function SetNext(nodes: Nodes, n: nat, next: Link): (r: Nodes)
    requires n < |nodes| && Rank(next) <= n
  {
    nodes[n := nodes[n].(next := next)]
  }

  /** A write to a node that is on no list is not seen. */
  lemma NextWritten(m: Memory, n: nat, next: Link)
    requires MemoryOk(m) && n < |m.nodes| && Rank(next) <= n
    requires forall c :: 0 <= c < CAPACITY ==> Avoids(m.nodes, m.heads[c], n)
    ensures var m' := m.(nodes := SetNext(m.nodes, n, next));
      && MemoryOk(m') && ListsOf(m') == ListsOf(m)
      && (forall c :: 0 <= c < CAPACITY ==>
            SameAlong(m.nodes, m'.nodes, m.heads[c]) && Avoids(m'.nodes, m'.heads[c], n))
  {
    var m' := m.(nodes := SetNext(m.nodes, n, next));
    forall c | 0 <= c < CAPACITY
      ensures SameAlong(m.nodes, m'.nodes, m.heads[c]) && Avoids(m'.nodes, m'.heads[c], n)
    {
      ChangeElsewhere(m.nodes, m'.nodes, m.heads[c], c, n);
      AvoidsKept(m.nodes, m'.nodes, m.heads[c], n);
    }
    AllListsSame(m, m');
  }

  /** The head write of SLIST_INSERT_HEAD makes the new entry visible, all at once. */
  lemma HeadWritten(m: Memory, n: nat, k: Key, v: nat)
    requires MemoryOk(m) && n < |m.nodes| && m.nodes[n] == Node(k, v, m.heads[Bucket(k)])
    requires Passed(m.nodes, m.heads[Bucket(k)], None, k)
    ensures var m' := m.(heads := m.heads[Bucket(k) := Some(n)]);
      MemoryOk(m') && ListsOf(m') == Add(ListsOf(m), k, v) && OtherListsSame(m, m', Bucket(k))
  {
    var m' := m.(heads := m.heads[Bucket(k) := Some(n)]);
    PassedFinds(m.nodes, m.heads[Bucket(k)], None, k);
    forall c | 0 <= c < CAPACITY ensures SameAlong(m.nodes, m'.nodes, m.heads[c]) {
      OlderIsSame(m.nodes, m'.nodes, m.heads[c]);
    }
    OneListAdded(m, m', k, v);
  }
}
