/** The sequential hash table as it runs, with its linked lists changed in place. */
module PhtBase {
  import opened Wrappers
  import opened PhtHash
  import opened PhtLists
  import opened PhtTable

  class HashTable {
    var nodes: seq<Node>
    const heads: array<Link>

    ghost predicate Valid()
      reads this, heads
    {
      Linked(nodes) && MemoryOk(Memory(nodes, heads[..]))
    }

    /** The table as lists. */
    ghost function Contents(): Lists
      requires Valid()
      reads this, heads
    {
      ListsOf(Memory(nodes, heads[..]))
    }

    /** hash_table_base_create */
    constructor ()
      ensures Valid() && fresh(heads) && Contents() == NoLists()
    {
      nodes := [];
      heads := new Link[CAPACITY](_ => None);
      new;
      for i := 0 to CAPACITY
        invariant fresh(heads) && nodes == [] && forall j :: 0 <= j < i ==> heads[j].None?
      {
        heads[i] := None;
      }
    }

    /** get_list_entry: the walk along one list. */
    method GetListEntry(head: Link, key: Key) returns (entry: Link)
      requires Linked(nodes) && Reaches(nodes, head)
      ensures Reaches(nodes, entry) && Passed(nodes, head, entry, key)
      ensures entry.Some? ==> nodes[entry.value].key == key
      ensures Find(Entries(nodes, head), key) == if entry.Some? then Some(nodes[entry.value].value) else None
    {
      entry := head;
      while entry.Some?
        invariant Reaches(nodes, entry) && Passed(nodes, head, entry, key)
        decreases Rank(entry)
      {
        if nodes[entry.value].key == key { break; }
        PassOn(nodes, head, entry.value, key);
        entry := nodes[entry.value].next;
      }
      PassedFinds(nodes, head, entry, key);
    }

    /** hash_table_base_contains */
    method Contains(mem: seq<Char>) returns (found: bool)
      requires Valid() && 0 in mem
      ensures found <==> Lookup(Contents(), Text(mem)).Some?
    {
      var hash := BernsteinHash(mem);
      var entry := GetListEntry(heads[hash % CAPACITY], Text(mem));
      return entry.Some?;
    }

    /** hash_table_base_get_value; None is a failed assertion. */
    method GetValue(mem: seq<Char>) returns (value: Option<nat>)
      requires Valid() && 0 in mem
      ensures value == Lookup(Contents(), Text(mem))
    {
      var hash := BernsteinHash(mem);
      var entry := GetListEntry(heads[hash % CAPACITY], Text(mem));
      if entry.None? { return None; }
      return Some(nodes[entry.value].value);
    }

    /** hash_table_base_add_entry */
    method AddEntry(mem: seq<Char>, value: nat)
      requires Valid() && 0 in mem
      modifies this, heads
      ensures Valid() && Contents() == Add(old(Contents()), Text(mem), value)
    {
      var key := Text(mem);
      var hash := BernsteinHash(mem);
      var index := hash % CAPACITY;
      var entry := GetListEntry(heads[index], key);
      ghost var m := Memory(nodes, heads[..]);
      if entry.Some? {
        ValueWritten(m, entry.value, key, value);
        nodes := nodes[entry.value := nodes[entry.value].(value := value)];
        return;
      }
      InsertHead(index, key, value);
    }

    /** A new entry at the front of its list. */
    method InsertHead(index: nat, key: Key, value: nat)
      requires Valid() && index == Bucket(key) && Passed(nodes, heads[index], None, key)
      modifies this, heads
      ensures Valid() && Contents() == Add(old(Contents()), key, value)
    {
      ghost var m0 := Memory(nodes, heads[..]);
      var n := |nodes|;
      NodeAllocated(m0, key, value);
      nodes := nodes + [Node(key, value, None)];
      ghost var m1 := Memory(nodes, heads[..]);
      NextWritten(m1, n, heads[index]);
      SameWalk(m0.nodes, m1.nodes, heads[index], None, key);
      nodes := nodes[n := nodes[n].(next := heads[index])];
      ghost var m2 := Memory(nodes, heads[..]);
      SameWalk(m1.nodes, m2.nodes, heads[index], None, key);
      HeadWritten(m2, n, key, value);
      heads[index] := Some(n);
      assert heads[..] == m2.heads[index := Some(n)];
    }
  }

  /** Any sequence of adds on a new table, and any question afterwards. */
  method AddThenAsk(log: seq<(seq<Char>, nat)>, mem: seq<Char>) returns (value: Option<nat>)
    requires 0 in mem && forall i :: 0 <= i < |log| ==> 0 in log[i].0
    ensures value == MapFind(MapOf(Texts(log)), Text(mem))
  {
    var table := new HashTable();
    for i := 0 to |log|
      invariant table.Valid() && fresh(table) && fresh(table.heads)
      invariant table.Contents() == AddAll(NoLists(), Texts(log[..i]))
    {
      table.AddEntry(log[i].0, log[i].1);
      assert log[..i + 1][..i] == log[..i];
      assert Texts(log[..i + 1])[..i] == Texts(log[..i]);
    }
    assert log[..|log|] == log;
    TableIsMap(Texts(log), Text(mem));
    value := table.GetValue(mem);
  }

  function Texts(log: seq<(seq<Char>, nat)>): seq<Pair>
    requires forall i :: 0 <= i < |log| ==> 0 in log[i].0
  {
    seq(|log|, i requires 0 <= i < |log| => (Text(log[i].0), log[i].1))
  }
}
