/** The tester of the hash tables: what its threads add and what it looks for afterwards. */
module PhtTester {
  import opened Wrappers
  import opened PhtHash
  import opened PhtLists
  import opened PhtTable
  import opened PhtConcurrent

  /** get_global_index, in 32-bit arithmetic. */
  function GlobalIndex(thread: nat, size: nat, index: nat): (g: nat)
    ensures g < UINT32_RANGE
  {
    (thread * size % UINT32_RANGE + index) % UINT32_RANGE
  }

  lemma ExactIndex(thread: nat, size: nat, index: nat)
    ensures GlobalIndex(thread, size, index) == (thread * size + index) % UINT32_RANGE
  {
    var x := thread * size;
    assert x == x % UINT32_RANGE + (x / UINT32_RANGE) * UINT32_RANGE;
    ModAddMultiple(x % UINT32_RANGE + index, x / UINT32_RANGE);
  }

  ghost predicate IndicesDistinct(threads: nat, size: nat) {
    forall t, j, u, i :: 0 <= t < threads && 0 <= j < size && 0 <= u < threads && 0 <= i < size && (t, j) != (u, i) ==>
      GlobalIndex(t, size, j) != GlobalIndex(u, size, i)
  }

  /** The entries of the threads have different indices exactly when there are at most 2^32
      of them; beyond that the index wraps around. */
  lemma IndicesDistinctIff(threads: nat, size: nat)
    requires 0 < size < UINT32_RANGE
    ensures IndicesDistinct(threads, size) <==> threads * size <= UINT32_RANGE
  {
    if threads * size <= UINT32_RANGE {
      forall t, j, u, i | 0 <= t < threads && 0 <= j < size && 0 <= u < threads && 0 <= i < size && (t, j) != (u, i)
        ensures GlobalIndex(t, size, j) != GlobalIndex(u, size, i)
      {
        InRange(t, j, threads, size);
        InRange(u, i, threads, size);
        Apart(t, j, u, i, size);
      }
    } else {
      var t, j := UINT32_RANGE / size, UINT32_RANGE % size;
      ExactIndex(t, size, j);
      ExactIndex(0, size, 0);
      assert t * size + j == UINT32_RANGE;
      TopThread(t, j, threads, size);
      assert t > 0;
    }
  }

  lemma InRange(t: nat, j: nat, threads: nat, size: nat)
    requires t < threads && j < size && threads * size <= UINT32_RANGE
    ensures GlobalIndex(t, size, j) == t * size + j
  {
    ExactIndex(t, size, j);
    assert t * size + size == (t + 1) * size <= threads * size by { Monotone(t + 1, threads, size); }
  }

  lemma Monotone(a: nat, b: nat, n: nat)
    requires a <= b
    ensures a * n <= b * n
  {
  }

  lemma Apart(t: nat, j: nat, u: nat, i: nat, size: nat)
    requires j < size && i < size && (t, j) != (u, i)
    ensures t * size + j != u * size + i
  {
    if t < u { Monotone(t + 1, u, size); assert (t + 1) * size == t * size + size; }
    if u < t { Monotone(u + 1, t, size); assert (u + 1) * size == u * size + size; }
  }

  lemma TopThread(t: nat, j: nat, threads: nat, size: nat)
    requires t * size + j == UINT32_RANGE < threads * size
    ensures t < threads
  {
    if t >= threads { Monotone(threads, t, size); }
  }

  // ---- The buffer of strings ----------------------------------------------------------

  /** The number of strings that calloc is asked for, in 32-bit arithmetic. */
  function BufferEntries(threads: nat, size: nat): nat { threads * size % UINT32_RANGE }

  ghost predicate StaysInBuffer(threads: nat, size: nat) {
    forall t, j :: 0 <= t < threads && 0 <= j < size ==> GlobalIndex(t, size, j) < BufferEntries(threads, size)
  }

  /** Every access to the strings stays inside the buffer exactly when their number does not
      wrap around. */
  lemma BufferSufficesIff(threads: nat, size: nat)
    requires size < UINT32_RANGE
    ensures StaysInBuffer(threads, size) <==> threads * size < UINT32_RANGE
  {
    if threads * size < UINT32_RANGE {
      forall t, j | 0 <= t < threads && 0 <= j < size ensures GlobalIndex(t, size, j) < BufferEntries(threads, size) {
        InRange(t, j, threads, size);
        Monotone(t + 1, threads, size);
        assert (t + 1) * size == t * size + size;
      }
    } else {
      assert size > 0;
      var g := UINT32_RANGE - 1;
      var t, j := g / size, g % size;
      ExactIndex(t, size, j);
      assert t * size + j == g;
      if t >= threads { Monotone(threads, t, size); }
      assert GlobalIndex(t, size, j) == g;
    }
  }

  /** With 65536 threads of 65536 entries, calloc is asked for nothing. */
  lemma EmptyBuffer()
    ensures BufferEntries(65536, 65536) == 0 && GlobalIndex(0, 65536, 0) == 0 && !StaysInBuffer(65536, 65536)
  {
    BufferSufficesIff(65536, 65536);
  }

  // ---- The threads --------------------------------------------------------------------

  /** run_v1 and run_v2: the calls of one thread. `strings` is the content of the buffer. */
  function ThreadProgram(strings: seq<Key>, thread: nat, size: nat): (p: seq<Pair>)
    requires forall j :: 0 <= j < size ==> GlobalIndex(thread, size, j) < |strings|
    ensures |p| == size
    ensures forall j :: 0 <= j < size ==> var g := GlobalIndex(thread, size, j); p[j] == (strings[g], g)
  {
    seq(size, j requires 0 <= j < size => (strings[GlobalIndex(thread, size, j)], GlobalIndex(thread, size, j)))
  }

  function Programs(strings: seq<Key>, threads: nat, size: nat): (ps: seq<seq<Pair>>)
    requires size < UINT32_RANGE && threads * size < UINT32_RANGE && |strings| == BufferEntries(threads, size)
    ensures |ps| == threads && forall t :: 0 <= t < threads ==> |ps[t]| == size
  {
    BufferSufficesIff(threads, size);
    seq(threads, t requires 0 <= t < threads => ThreadProgram(strings, t, size))
  }

  /** The strings of one thread. */
  function Share(strings: seq<Key>, size: nat, u: nat): seq<Key> {
    if 0 <= u * size && u * size + size <= |strings| then strings[u * size..u * size + size] else []
  }

  /** The last `k` of a share is at index `i`. */
  ghost predicate LastAt(share: seq<Key>, i: nat, k: Key) {
    i < |share| && share[i] == k && forall i' :: i < i' < |share| ==> share[i'] != k
  }

  /** What the table answers for a string: an index at which it was added, by some thread that
      has no later entry with the same string; if no other string is equal, its own index. */
  ghost predicate Answers(found: Option<nat>, strings: seq<Key>, threads: nat, size: nat, g: nat)
    requires g < |strings|
  {
    && found.Some?
    && (exists u: nat, i: nat ::
          u < threads && LastAt(Share(strings, size, u), i, strings[g]) && found.value == u * size + i)
    && ((forall h :: 0 <= h < |strings| && h != g ==> strings[h] != strings[g]) ==> found.value == g)
  }

  /** Once all threads have been joined, no string is missing, in either version, and repeated
      strings have the index of a last add. */
  lemma NothingMissing(mode: Mode, strings: seq<Key>, threads: nat, size: nat, schedule: seq<nat>, t: nat, j: nat)
    requires size < UINT32_RANGE && threads * size < UINT32_RANGE && |strings| == BufferEntries(threads, size)
    requires t < threads && j < size && Inv(Start(mode, Programs(strings, threads, size)))
    requires Quiescent(Run(Start(mode, Programs(strings, threads, size)), schedule))
    ensures MemoryOk(Run(Start(mode, Programs(strings, threads, size)), schedule).memory)
    ensures var g := GlobalIndex(t, size, j);
      g < |strings| && Answers(
        Lookup(ListsOf(Run(Start(mode, Programs(strings, threads, size)), schedule).memory), strings[g]),
        strings, threads, size, g)
  {
    BufferSufficesIff(threads, size);
    var programs := Programs(strings, threads, size);
    var g := GlobalIndex(t, size, j);
    assert programs[t][j] == (strings[g], g);
    NothingLost(mode, programs, schedule, strings[g]);
    var found := Lookup(ListsOf(Run(Start(mode, programs), schedule).memory), strings[g]);
    var u, i := LastAddWins(mode, programs, schedule, strings[g]);
    hide Start, Run, Lookup, Inv, MemoryOk, LastAt;
    assert programs[u][i] == (strings[GlobalIndex(u, size, i)], GlobalIndex(u, size, i));
    LastOfShare(strings, threads, size, u, i);
  }

  lemma ShareOfThread(strings: seq<Key>, threads: nat, size: nat, u: nat, i: nat)
    requires size < UINT32_RANGE && threads * size < UINT32_RANGE && |strings| == BufferEntries(threads, size)
    requires u < threads && i < size
    ensures GlobalIndex(u, size, i) == u * size + i < |strings| && |Share(strings, size, u)| == size
    ensures Share(strings, size, u)[i] == strings[GlobalIndex(u, size, i)] == Programs(strings, threads, size)[u][i].0
  {
    BufferSufficesIff(threads, size);
    InRange(u, i, threads, size);
    Monotone(u + 1, threads, size);
    assert (u + 1) * size == u * size + size;
  }

  lemma LastOfShare(strings: seq<Key>, threads: nat, size: nat, u: nat, i: nat)
    requires size < UINT32_RANGE && threads * size < UINT32_RANGE && |strings| == BufferEntries(threads, size)
    requires u < threads && i < size
    requires var p := Programs(strings, threads, size)[u]; forall i' :: i < i' < size ==> p[i'].0 != p[i].0
    ensures LastAt(Share(strings, size, u), i, Programs(strings, threads, size)[u][i].0)
    ensures GlobalIndex(u, size, i) == u * size + i
  {
    hide Share, Programs;
    ShareOfThread(strings, threads, size, u, i);
    forall i' | i < i' < size ensures Share(strings, size, u)[i'] != Programs(strings, threads, size)[u][i].0 {
      ShareOfThread(strings, threads, size, u, i');
    }
  }
}
