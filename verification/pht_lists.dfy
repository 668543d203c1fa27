/** The linked lists of the hash tables: nodes in a heap, and what a walk along them shows. */
module PhtLists {
  import opened Wrappers
  import opened PhtHash

  /** A list entry. A node is always linked in front of older nodes. */
  datatype Node = Node(key: Key, value: nat, next: Option<nat>)

  type Link = Option<nat>
  type Pair = (Key, nat)

  /** The heap: a link leads to an older node. */
  predicate Linked(nodes: seq<Node>) {
    forall i :: 0 <= i < |nodes| && nodes[i].next.Some? ==> nodes[i].next.value < i
  }

  type Nodes = n: seq<Node> | Linked(n)

  predicate Reaches(nodes: Nodes, p: Link) { p.Some? ==> p.value < |nodes| }

  function Rank(p: Link): nat { if p.None? then 0 else p.value + 1 }

  /** The list that starts at `p`. */
  function Entries(nodes: Nodes, p: Link): (l: seq<Pair>)
    requires Reaches(nodes, p)
    decreases Rank(p)
  {
    if p.None? then [] else
    var n := nodes[p.value];
    [(n.key, n.value)] + Entries(nodes, n.next)
  }

  // ---- The sequential table -----------------------------------------------------------

  function Find(l: seq<Pair>, k: Key): Option<nat> {
    if l == [] then None else if l[0].0 == k then Some(l[0].1) else Find(l[1..], k)
  }

  /** A new value for a key that is there. */
  function Replace(l: seq<Pair>, k: Key, v: nat): (r: seq<Pair>)
    ensures |r| == |l|
  {
    if l == [] then [] else if l[0].0 == k then [(k, v)] + l[1..] else [l[0]] + Replace(l[1..], k, v)
  }

  /** One list after an entry has been added: a known key keeps its place, a new key goes to
      the front. */
  function Added(l: seq<Pair>, k: Key, v: nat): seq<Pair> {
    if Find(l, k).Some? then Replace(l, k, v) else [(k, v)] + l
  }

  lemma {:induction false} ReplacedAt(l: seq<Pair>, k: Key, v: nat, n: nat)
    requires n <= |l| && (forall i :: 0 <= i < n ==> l[i].0 != k) && (n < |l| ==> l[n].0 == k)
    ensures Find(l, k).Some? <==> n < |l|
    ensures n < |l| ==> Replace(l, k, v) == l[n := (k, v)]
  {
    if n > 0 {
      ReplacedAt(l[1..], k, v, n - 1);
      assert n < |l| ==> [l[0]] + l[1..][n - 1 := (k, v)] == l[n := (k, v)];
    }
  }

  /** Where an added entry goes: a key that is there, first at index `n`, keeps its place, and
      so do all other entries; a new key comes first, in front of all others. */
  lemma AddedPlaces(l: seq<Pair>, k: Key, v: nat, n: nat)
    requires n <= |l| && (forall i :: 0 <= i < n ==> l[i].0 != k) && (n < |l| ==> l[n].0 == k)
    ensures Added(l, k, v) == if n < |l| then l[n := (k, v)] else [(k, v)] + l
  {
    ReplacedAt(l, k, v, n);
  }

  // ---- Walking along a list -----------------------------------------------------------

  /** A walk from `head` comes to `p` without meeting key `k`. */
  predicate Passed(nodes: Nodes, head: Link, p: Link, k: Key)
    requires Reaches(nodes, head)
    decreases Rank(head)
  {
    head == p || (head.Some? && nodes[head.value].key != k && Passed(nodes, nodes[head.value].next, p, k))
  }

  lemma {:induction false} PassOn(nodes: Nodes, head: Link, i: nat, k: Key)
    requires Reaches(nodes, head) && i < |nodes| && Passed(nodes, head, Some(i), k) && nodes[i].key != k
    ensures Passed(nodes, head, nodes[i].next, k)
    decreases Rank(head)
  {
    if head != Some(i) {
      PassOn(nodes, nodes[head.value].next, i, k);
    } else {
      assert Passed(nodes, nodes[i].next, nodes[i].next, k);
    }
  }

  /** From where the walk is, the search gives what it would give from the head. */
  lemma {:induction false} PassedFinds(nodes: Nodes, head: Link, p: Link, k: Key)
    requires Reaches(nodes, head) && Reaches(nodes, p) && Passed(nodes, head, p, k)
    ensures Find(Entries(nodes, head), k) == Find(Entries(nodes, p), k)
    decreases Rank(head)
  {
    if head != p {
      PassedFinds(nodes, nodes[head.value].next, p, k);
      assert Entries(nodes, head)[1..] == Entries(nodes, nodes[head.value].next);
    }
  }

  /** Nodes that two heaps agree on, as far as a list is concerned. */
  predicate SameAlong(nodes: Nodes, nodes': Nodes, p: Link)
    requires Reaches(nodes, p)
    decreases Rank(p)
  {
    p.Some? ==> p.value < |nodes'| && nodes'[p.value] == nodes[p.value] && SameAlong(nodes, nodes', nodes[p.value].next)
  }

  lemma {:induction false} SameList(nodes: Nodes, nodes': Nodes, p: Link)
    requires Reaches(nodes, p) && SameAlong(nodes, nodes', p)
    ensures Reaches(nodes', p) && Entries(nodes', p) == Entries(nodes, p)
    decreases Rank(p)
  {
    if p.Some? { SameList(nodes, nodes', nodes[p.value].next); }
  }

  lemma {:induction false} SameWalk(nodes: Nodes, nodes': Nodes, head: Link, p: Link, k: Key)
    requires Reaches(nodes, head) && SameAlong(nodes, nodes', head) && Passed(nodes, head, p, k)
    ensures Reaches(nodes', head) && Passed(nodes', head, p, k)
    decreases Rank(head)
  {
    if head != p { SameWalk(nodes, nodes', nodes[head.value].next, p, k); }
  }

  /** A list does not see nodes younger than its first. */
  lemma {:induction false} OlderIsSame(nodes: Nodes, nodes': Nodes, p: Link)
    requires Reaches(nodes, p) && |nodes'| >= |nodes| && forall i :: 0 <= i < Rank(p) ==> nodes'[i] == nodes[i]
    ensures SameAlong(nodes, nodes', p)
    decreases Rank(p)
  {
    if p.Some? { OlderIsSame(nodes, nodes', nodes[p.value].next); }
  }

  function SetValue(nodes: Nodes, i: nat, v: nat): (r: Nodes)
    requires i < |nodes|
  {
    nodes[i := nodes[i].(value := v)]
  }

  /** Writing the value of the node at which a search for `k` has stopped. */
  lemma {:induction false} SetValueReplaces(nodes: Nodes, head: Link, i: nat, k: Key, v: nat)
    requires Reaches(nodes, head) && i < |nodes| && Passed(nodes, head, Some(i), k) && nodes[i].key == k
    ensures Entries(SetValue(nodes, i, v), head) == Added(Entries(nodes, head), k, v)
    ensures Find(Entries(nodes, head), k).Some?
    decreases Rank(head)
  {
    var nodes' := SetValue(nodes, i, v);
    var next := nodes[head.value].next;
    assert Entries(nodes, head)[1..] == Entries(nodes, next);
    if head == Some(i) {
      OlderIsSame(nodes, nodes', next);
      SameList(nodes, nodes', next);
    } else {
      SetValueReplaces(nodes, next, i, k, v);
      assert nodes'[head.value] == nodes[head.value];
    }
  }
}
