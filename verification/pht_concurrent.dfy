/** The locked hash tables: any number of threads, each adding the entries of its program, in
    any interleaving of their single steps. */
module PhtConcurrent {
  import opened Wrappers
  import opened PhtHash
  import opened PhtLists
  import opened PhtTable

  /** Version 1 has one mutex, version 2 has one for each bucket. */
  datatype Mode = GlobalLock | BucketLocks

  function LockOf(mode: Mode, b: nat): nat { if mode == GlobalLock then 0 else b }

  /** How far a thread has come in its current call of add_entry: outside it; past the lock;
      about to look at the entry behind `p`; about to write the value of entry `i`; about to
      allocate an entry; about to set the next pointer of its entry `n`; about to make `n` the
      head of the list; about to unlock. */
  datatype Place =
    | Outside | Entered | Searching(p: Link) | Updating(i: nat)
    | Allocating | Linking(n: nat) | Publishing(n: nat) | Leaving

  /** `done` counts the finished calls of each thread. `log` is bookkeeping of the model: the
      adds in the order of the writes that make them visible. */
  datatype Config = Config(
    mode: Mode, programs: seq<seq<Pair>>, memory: Memory, locks: seq<Option<nat>>,
    place: seq<Place>, done: seq<nat>, log: seq<(nat, Pair)>)

  // ---- The invariant ------------------------------------------------------------------

  predicate Sizes(s: Config) {
    && |s.locks| == CAPACITY && |s.place| == |s.done| == |s.programs|
    && forall t :: 0 <= t < |s.programs| ==>
         s.done[t] <= |s.programs[t]| && (s.place[t] != Outside ==> s.done[t] < |s.programs[t]|)
  }

  predicate Inside(s: Config, t: nat)
    requires Sizes(s)
  {
    t < |s.place| && s.place[t] != Outside
  }

  /** The add that thread `t` is working on. */
  function Op(s: Config, t: nat): Pair
    requires Sizes(s) && t < |s.programs| && s.done[t] < |s.programs[t]|
  {
    s.programs[t][s.done[t]]
  }

  function Lock(s: Config, t: nat): nat
    requires Sizes(s) && t < |s.programs| && s.done[t] < |s.programs[t]|
  {
    LockOf(s.mode, Bucket(Op(s, t).0))
  }

  /** What a thread that adds `(k, v)` knows about the memory at each place. */
  predicate Knows(m: Memory, place: Place, k: Key, v: nat)
    requires MemoryOk(m)
  {
    var nodes, head := m.nodes, m.heads[Bucket(k)];
    match place
    case Searching(p) => Reaches(nodes, p) && Passed(nodes, head, p, k)
    case Updating(i) => i < |nodes| && nodes[i].key == k && Passed(nodes, head, Some(i), k)
    case Allocating => Passed(nodes, head, None, k)
    case Linking(n) =>
      n < |nodes| && nodes[n].key == k && nodes[n].value == v && Rank(head) <= n && Avoids(nodes, head, n)
      && Passed(nodes, head, None, k)
    case Publishing(n) => n < |nodes| && nodes[n] == Node(k, v, head) && Passed(nodes, head, None, k)
    case _ => true
  }

  predicate LocksOk(s: Config)
    requires Sizes(s)
  {
    && (forall t :: 0 <= t < |s.place| && Inside(s, t) ==> s.locks[Lock(s, t)] == Some(t))
    && (forall l :: 0 <= l < CAPACITY && s.locks[l].Some? ==>
          Inside(s, s.locks[l].value) && Lock(s, s.locks[l].value) == l)
  }

  predicate KnowledgeOk(s: Config)
    requires Sizes(s) && MemoryOk(s.memory)
  {
    forall t :: 0 <= t < |s.place| && Inside(s, t) ==> Knows(s.memory, s.place[t], Op(s, t).0, Op(s, t).1)
  }

  /** The adds in a log. */
  function Adds(log: seq<(nat, Pair)>): (r: seq<Pair>)
    ensures |r| == |log|
  {
    if log == [] then [] else Adds(log[..|log| - 1]) + [log[|log| - 1].1]
  }

  /** The adds of one thread. */
  function AddsOf(log: seq<(nat, Pair)>, t: nat): seq<Pair> {
    if log == [] then [] else
    var last := log[|log| - 1];
    AddsOf(log[..|log| - 1], t) + (if last.0 == t then [last.1] else [])
  }

  function Committed(s: Config, t: nat): (n: nat)
    requires Sizes(s) && t < |s.programs|
    ensures n <= |s.programs[t]|
  {
    s.done[t] + (if s.place[t] == Leaving then 1 else 0)
  }

  ghost predicate LogOk(s: Config)
    requires Sizes(s) && MemoryOk(s.memory)
  {
    && ListsOf(s.memory) == AddAll(NoLists(), Adds(s.log))
    && (forall i :: 0 <= i < |s.log| ==> s.log[i].0 < |s.programs|)
    && (forall t :: 0 <= t < |s.programs| ==> AddsOf(s.log, t) == s.programs[t][..Committed(s, t)])
  }

  ghost predicate Inv(s: Config) {
    Sizes(s) && MemoryOk(s.memory) && LocksOk(s) && KnowledgeOk(s) && LogOk(s)
  }

  // ---- Steps --------------------------------------------------------------------------

  function Move(s: Config, t: nat, place: Place): Config
    requires t < |s.place|
  {
    s.(place := s.place[t := place])
  }

  function Commit(s: Config, t: nat, m: Memory, a: Pair): Config
    requires t < |s.place|
  {
    s.(memory := m, place := s.place[t := Leaving], log := s.log + [(t, a)])
  }

  /** One step of thread `t`; a thread that waits for a mutex, or has finished, stays. */
  function Step(s: Config, t: nat): Config
    requires Inv(s)
  {
    if t >= |s.programs| || s.done[t] == |s.programs[t]| then s else
    var (k, v) := Op(s, t);
    var m := s.memory;
    match s.place[t]
    case Outside =>
      if s.locks[Lock(s, t)].Some? then s else
      Move(s, t, Entered).(locks := s.locks[Lock(s, t) := Some(t)])
    case Entered => Move(s, t, Searching(m.heads[Bucket(k)]))
    case Searching(None) => Move(s, t, Allocating)
    case Searching(Some(i)) =>
      Move(s, t, if m.nodes[i].key == k then Updating(i) else Searching(m.nodes[i].next))
    case Updating(i) => Commit(s, t, m.(nodes := SetValue(m.nodes, i, v)), (k, v))
    case Allocating => Move(s, t, Linking(|m.nodes|)).(memory := m.(nodes := NewNode(m.nodes, k, v)))
    case Linking(n) => Move(s, t, Publishing(n)).(memory := m.(nodes := SetNext(m.nodes, n, m.heads[Bucket(k)])))
    case Publishing(n) => Commit(s, t, m.(heads := m.heads[Bucket(k) := Some(n)]), (k, v))
    case Leaving =>
      Move(s, t, Outside).(locks := s.locks[Lock(s, t) := None], done := s.done[t := s.done[t] + 1])
  }

  // ---- Mutual exclusion ---------------------------------------------------------------

  /** Two threads inside add_entry are on different buckets, and under the global lock there
      is at most one. */
  lemma MutualExclusion(s: Config, t: nat, u: nat)
    requires Inv(s) && Inside(s, t) && Inside(s, u) && t != u
    ensures Bucket(Op(s, t).0) != Bucket(Op(s, u).0) && s.mode == BucketLocks
  {
    assert s.locks[Lock(s, t)] == Some(t) && s.locks[Lock(s, u)] == Some(u);
  }

  /** A thread that calls add_entry gets in exactly when no thread is inside that it has to
      wait for: with one lock, none at all; with a lock for each bucket, none that works on
      the same bucket. */
  lemma EntersIff(s: Config, t: nat)
    requires Inv(s) && t < |s.programs| && s.place[t] == Outside && s.done[t] < |s.programs[t]|
    ensures Step(s, t).place[t] == Entered <==>
      forall u :: 0 <= u < |s.programs| && Inside(s, u) ==>
        s.mode == BucketLocks && Bucket(Op(s, u).0) != Bucket(Op(s, t).0)
    ensures Step(s, t).place[t] != Entered ==> Step(s, t) == s
  {
    hide MemoryOk, KnowledgeOk, LogOk;
    if s.locks[Lock(s, t)].Some? {
      var u := s.locks[Lock(s, t)].value;
      assert Inside(s, u) && Lock(s, u) == Lock(s, t);
    }
  }

  // ---- What the others see ------------------------------------------------------------

  /** A change of the memory that a thread working on bucket `b` does not notice. */
  ghost predicate Quiet(m: Memory, m': Memory, b: nat)
    requires MemoryOk(m) && MemoryOk(m') && b < CAPACITY
  {
    && m'.heads[b] == m.heads[b] && |m'.nodes| >= |m.nodes| && SameAlong(m.nodes, m'.nodes, m.heads[b])
    && forall i :: 0 <= i < |m.nodes| && Bucket(m.nodes[i].key) == b ==> m'.nodes[i] == m.nodes[i]
  }

  lemma KnowledgeKept(m: Memory, m': Memory, place: Place, k: Key, v: nat)
    requires MemoryOk(m) && MemoryOk(m') && Quiet(m, m', Bucket(k)) && Knows(m, place, k, v)
    ensures Knows(m', place, k, v)
  {
    var head := m.heads[Bucket(k)];
    match place
    case Searching(p) => SameWalk(m.nodes, m'.nodes, head, p, k);
    case Updating(i) => SameWalk(m.nodes, m'.nodes, head, Some(i), k);
    case Allocating => SameWalk(m.nodes, m'.nodes, head, None, k);
    case Linking(n) =>
      SameWalk(m.nodes, m'.nodes, head, None, k);
      AvoidsKept(m.nodes, m'.nodes, head, n);
    case Publishing(n) => SameWalk(m.nodes, m'.nodes, head, None, k);
    case _ =>
  }

  /** A thread inside add_entry goes on to another place inside, and changes at most what no
      other thread inside can notice. */
  lemma AdvanceKnowledge(s: Config, t: nat, m': Memory, place: Place)
    requires Inv(s) && Inside(s, t) && MemoryOk(m') && place != Outside
    requires forall c :: 0 <= c < CAPACITY && c != Bucket(Op(s, t).0) ==> Quiet(s.memory, m', c)
    requires Knows(m', place, Op(s, t).0, Op(s, t).1)
    ensures var s' := Move(s, t, place).(memory := m'); Sizes(s') && LocksOk(s') && KnowledgeOk(s')
  {
    var s' := Move(s, t, place).(memory := m');
    forall u | 0 <= u < |s.place| && Inside(s', u) && u != t
      ensures Knows(m', s'.place[u], Op(s', u).0, Op(s', u).1)
    {
      assert Inside(s, u);
      MutualExclusion(s, t, u);
      KnowledgeKept(s.memory, m', s.place[u], Op(s, u).0, Op(s, u).1);
    }
    assert forall u :: 0 <= u < |s.place| ==> Inside(s', u) == Inside(s, u);
  }

  /** A step inside that adds nothing. */
  lemma AdvanceKeeps(s: Config, t: nat, m': Memory, place: Place)
    requires Inv(s) && Inside(s, t) && s.place[t] != Leaving && place != Leaving && MemoryOk(m') && place != Outside
    requires forall c :: 0 <= c < CAPACITY && c != Bucket(Op(s, t).0) ==> Quiet(s.memory, m', c)
    requires Knows(m', place, Op(s, t).0, Op(s, t).1) && ListsOf(m') == ListsOf(s.memory)
    ensures Inv(Move(s, t, place).(memory := m'))
  {
    AdvanceKnowledge(s, t, m', place);
    var s' := Move(s, t, place).(memory := m');
    forall u | 0 <= u < |s.programs| ensures Committed(s', u) == Committed(s, u) {}
    hide Knows, Quiet, LocksOk, KnowledgeOk;
  }

  /** The step that makes an add visible. */
  lemma CommitKeeps(s: Config, t: nat, m': Memory)
    requires Inv(s) && Inside(s, t) && s.place[t] != Leaving && MemoryOk(m')
    requires forall c :: 0 <= c < CAPACITY && c != Bucket(Op(s, t).0) ==> Quiet(s.memory, m', c)
    requires ListsOf(m') == Add(ListsOf(s.memory), Op(s, t).0, Op(s, t).1)
    ensures Inv(Commit(s, t, m', Op(s, t)))
  {
    AdvanceKnowledge(s, t, m', Leaving);
    var s' := Commit(s, t, m', Op(s, t));
    hide Knows, Quiet;
    assert s'.log[..|s'.log| - 1] == s.log;
    CommitLog(s, s', t);
    CommitRest(s, s', t, m');
  }

  lemma CommitLog(s: Config, s': Config, t: nat)
    requires Inv(s) && Inside(s, t) && s.place[t] != Leaving && Sizes(s')
    requires s'.programs == s.programs && s'.done == s.done && s'.place == s.place[t := Leaving]
    requires s'.log == s.log + [(t, Op(s, t))]
    ensures Adds(s'.log) == Adds(s.log) + [Op(s, t)]
    ensures forall u :: 0 <= u < |s.programs| ==> AddsOf(s'.log, u) == s.programs[u][..Committed(s', u)]
  {
    hide MemoryOk, LocksOk, KnowledgeOk;
    assert s'.log[..|s'.log| - 1] == s.log;
    forall u | 0 <= u < |s.programs| ensures AddsOf(s'.log, u) == s.programs[u][..Committed(s', u)] {
      assert AddsOf(s'.log, u) == AddsOf(s.log, u) + (if u == t then [Op(s, t)] else []);
      if u == t {
        assert s.programs[t][..s.done[t]] + [s.programs[t][s.done[t]]] == s.programs[t][..s.done[t] + 1];
      }
    }
  }

  lemma CommitRest(s: Config, s': Config, t: nat, m': Memory)
    requires Inv(s) && Inside(s, t) && MemoryOk(m') && s' == Commit(s, t, m', Op(s, t))
    requires ListsOf(m') == Add(ListsOf(s.memory), Op(s, t).0, Op(s, t).1)
    requires Adds(s'.log) == Adds(s.log) + [Op(s, t)]
    requires var s1 := Move(s, t, Leaving).(memory := m'); Sizes(s1) && LocksOk(s1) && KnowledgeOk(s1)
    ensures Sizes(s') && LocksOk(s') && KnowledgeOk(s')
    ensures ListsOf(s'.memory) == AddAll(NoLists(), Adds(s'.log))
    ensures forall i :: 0 <= i < |s'.log| ==> s'.log[i].0 < |s'.programs|
  {
    hide MemoryOk, Inv;
    CommitPlaces(Move(s, t, Leaving).(memory := m'), s');
    CommitLists(s, s', t);
  }

  lemma CommitLists(s: Config, s': Config, t: nat)
    requires Inv(s) && Inside(s, t) && MemoryOk(s'.memory) && s'.log == s.log + [(t, Op(s, t))]
      && s'.programs == s.programs
    requires ListsOf(s'.memory) == Add(ListsOf(s.memory), Op(s, t).0, Op(s, t).1)
    requires Adds(s'.log) == Adds(s.log) + [Op(s, t)]
    ensures ListsOf(s'.memory) == AddAll(NoLists(), Adds(s'.log))
    ensures forall i :: 0 <= i < |s'.log| ==> s'.log[i].0 < |s'.programs|
  {
    hide MemoryOk, LocksOk, KnowledgeOk;
    assert Adds(s'.log)[..|Adds(s'.log)| - 1] == Adds(s.log);
  }

  /** The log plays no part in what threads know. */
  lemma CommitPlaces(s: Config, s': Config)
    requires Sizes(s) && MemoryOk(s.memory) && LocksOk(s) && KnowledgeOk(s) && s' == s.(log := s'.log)
    ensures Sizes(s') && LocksOk(s') && KnowledgeOk(s')
  {
    hide Knows, MemoryOk;
    assert forall u :: 0 <= u < |s.place| ==>
      Inside(s', u) == Inside(s, u) && (Inside(s, u) ==> Op(s', u) == Op(s, u) && Lock(s', u) == Lock(s, u));
  }

  // ---- Every step keeps the invariant -------------------------------------------------

  lemma AcquireKeeps(s: Config, t: nat)
    requires Inv(s) && t < |s.programs| && s.done[t] < |s.programs[t]| && s.place[t] == Outside
    requires s.locks[Lock(s, t)].None?
    ensures Inv(Step(s, t))
  {
    var s' := Step(s, t);
    assert forall u :: 0 <= u < |s.place| ==> Inside(s', u) == (Inside(s, u) || u == t);
    forall u | 0 <= u < |s.place| && Inside(s', u) ensures Knows(s'.memory, s'.place[u], Op(s', u).0, Op(s', u).1) {
      if u != t { assert Inside(s, u); }
    }
    hide Knows;
    forall u | 0 <= u < |s.place| && Inside(s', u) ensures s'.locks[Lock(s', u)] == Some(u) {
      if u != t { assert Inside(s, u); }
    }
    forall u | 0 <= u < |s.programs| ensures Committed(s', u) == Committed(s, u) {}
  }

  lemma ReleaseKeeps(s: Config, t: nat)
    requires Inv(s) && t < |s.programs| && s.place[t] == Leaving
    ensures Inv(Step(s, t))
  {
    var s' := Step(s, t);
    assert Inside(s, t);
    assert forall u :: 0 <= u < |s.place| ==> Inside(s', u) == (Inside(s, u) && u != t);
    forall u | 0 <= u < |s.place| && Inside(s', u)
      ensures s'.locks[Lock(s', u)] == Some(u) && Knows(s'.memory, s'.place[u], Op(s', u).0, Op(s', u).1)
    {
      assert Inside(s, u);
    }
    hide Knows;
    forall u | 0 <= u < |s.programs| ensures Committed(s', u) == Committed(s, u) {}
  }

  lemma QuietSame(m: Memory, c: nat)
    requires MemoryOk(m) && c < CAPACITY
    ensures Quiet(m, m, c)
  {
    OlderIsSame(m.nodes, m.nodes, m.heads[c]);
  }

  /** A write in one bucket, or to a node of that bucket, is quiet for the others. */
  lemma QuietElsewhere(m: Memory, m': Memory, b: nat, c: nat)
    requires MemoryOk(m) && MemoryOk(m') && b < CAPACITY && c < CAPACITY && b != c
    requires OtherListsSame(m, m', b) && |m'.nodes| >= |m.nodes|
    requires forall i :: 0 <= i < |m.nodes| && Bucket(m.nodes[i].key) != b ==> m'.nodes[i] == m.nodes[i]
    ensures Quiet(m, m', c)
  {
  }

  lemma UpdateKeeps(s: Config, t: nat)
    requires Inv(s) && t < |s.programs| && s.place[t].Updating?
    ensures Inv(Step(s, t))
  {
    var m, k, v, i := s.memory, Op(s, t).0, Op(s, t).1, s.place[t].i;
    assert Inside(s, t) && Knows(m, s.place[t], k, v);
    ValueWritten(m, i, k, v);
    var m' := m.(nodes := SetValue(m.nodes, i, v));
    forall c | 0 <= c < CAPACITY && c != Bucket(k) ensures Quiet(m, m', c) { QuietElsewhere(m, m', Bucket(k), c); }
    CommitKeeps(s, t, m');
    hide Inv;
  }

  lemma PublishKeeps(s: Config, t: nat)
    requires Inv(s) && t < |s.programs| && s.place[t].Publishing?
    ensures Inv(Step(s, t))
  {
    var m, k, v, n := s.memory, Op(s, t).0, Op(s, t).1, s.place[t].n;
    assert Inside(s, t) && Knows(m, s.place[t], k, v);
    HeadWritten(m, n, k, v);
    var m' := m.(heads := m.heads[Bucket(k) := Some(n)]);
    forall c | 0 <= c < CAPACITY && c != Bucket(k) ensures Quiet(m, m', c) { QuietElsewhere(m, m', Bucket(k), c); }
    CommitKeeps(s, t, m');
    hide Inv;
  }

  lemma AllocateKeeps(s: Config, t: nat)
    requires Inv(s) && t < |s.programs| && s.place[t].Allocating?
    ensures Inv(Step(s, t))
  {
    var m, k, v := s.memory, Op(s, t).0, Op(s, t).1;
    assert Inside(s, t) && Knows(m, s.place[t], k, v);
    NodeAllocated(m, k, v);
    var m' := m.(nodes := NewNode(m.nodes, k, v));
    SameWalk(m.nodes, m'.nodes, m.heads[Bucket(k)], None, k);
    AdvanceKeeps(s, t, m', Linking(|m.nodes|));
    hide Inv;
  }

  lemma {:induction false} OtherBucketAvoids(nodes: Nodes, p: Link, b: nat, n: nat)
    requires Reaches(nodes, p) && InBucket(nodes, p, b) && n < |nodes| && Bucket(nodes[n].key) != b
    ensures Avoids(nodes, p, n)
    decreases Rank(p)
  {
    if p.Some? { OtherBucketAvoids(nodes, nodes[p.value].next, b, n); }
  }

  lemma LinkKeeps(s: Config, t: nat)
    requires Inv(s) && t < |s.programs| && s.place[t].Linking?
    ensures Inv(Step(s, t))
  {
    var m, k, v, n := s.memory, Op(s, t).0, Op(s, t).1, s.place[t].n;
    assert Inside(s, t) && Knows(m, s.place[t], k, v);
    forall c | 0 <= c < CAPACITY ensures Avoids(m.nodes, m.heads[c], n) {
      if c != Bucket(k) { OtherBucketAvoids(m.nodes, m.heads[c], c, n); }
    }
    NextWritten(m, n, m.heads[Bucket(k)]);
    var m' := m.(nodes := SetNext(m.nodes, n, m.heads[Bucket(k)]));
    SameWalk(m.nodes, m'.nodes, m.heads[Bucket(k)], None, k);
    AdvanceKeeps(s, t, m', Publishing(n));
    hide Inv;
  }

  lemma SearchKeeps(s: Config, t: nat)
    requires Inv(s) && t < |s.programs| && (s.place[t].Entered? || s.place[t].Searching?)
    ensures Inv(Step(s, t))
  {
    var m, k, v := s.memory, Op(s, t).0, Op(s, t).1;
    assert Inside(s, t) && Knows(m, s.place[t], k, v);
    forall c | 0 <= c < CAPACITY ensures Quiet(m, m, c) { QuietSame(m, c); }
    if s.place[t].Searching? && s.place[t].p.Some? && m.nodes[s.place[t].p.value].key != k {
      PassOn(m.nodes, m.heads[Bucket(k)], s.place[t].p.value, k);
    }
    var s' := Step(s, t);
    assert Knows(m, s'.place[t], k, v);
    AdvanceKeeps(s, t, m, s'.place[t]);
    hide Inv;
  }

  lemma StepKeeps(s: Config, t: nat)
    requires Inv(s)
    ensures Inv(Step(s, t)) && Step(s, t).programs == s.programs && Step(s, t).mode == s.mode
  {
    if t < |s.programs| && s.done[t] < |s.programs[t]| {
      match s.place[t]
      case Outside => if s.locks[Lock(s, t)].None? { AcquireKeeps(s, t); }
      case Entered => SearchKeeps(s, t);
      case Searching(_) => SearchKeeps(s, t);
      case Updating(_) => UpdateKeeps(s, t);
      case Allocating => AllocateKeeps(s, t);
      case Linking(_) => LinkKeeps(s, t);
      case Publishing(_) => PublishKeeps(s, t);
      case Leaving => ReleaseKeeps(s, t);
    }
  }

  /** The head write or the value write of an add is the add: it becomes visible there, as a
      whole, and no other step of any thread changes a list. */
  lemma AddsAtOnce(s: Config, t: nat)
    requires Inv(s)
    ensures MemoryOk(Step(s, t).memory)
    ensures ListsOf(Step(s, t).memory) ==
      if t < |s.programs| && (s.place[t].Updating? || s.place[t].Publishing?)
      then Add(ListsOf(s.memory), Op(s, t).0, Op(s, t).1)
      else ListsOf(s.memory)
  {
    StepKeeps(s, t);
    StepLogs(s, t);
    hide Inv, Step;
    InvRefines(s);
    InvRefines(Step(s, t));
    if t < |s.programs| && (s.place[t].Updating? || s.place[t].Publishing?) {
      var log := s.log + [(t, Op(s, t))];
      assert log[..|log| - 1] == s.log;
      assert Adds(log)[..|Adds(log)| - 1] == Adds(s.log);
    }
  }

  lemma StepLogs(s: Config, t: nat)
    requires Inv(s)
    ensures Sizes(s) && MemoryOk(s.memory) && MemoryOk(Step(s, t).memory)
    ensures Step(s, t).log ==
      if t < |s.programs| && (s.place[t].Updating? || s.place[t].Publishing?) then s.log + [(t, Op(s, t))] else s.log
  {
    StepKeeps(s, t);
    hide MemoryOk, LocksOk, KnowledgeOk, LogOk;
  }

  // ---- Runs ---------------------------------------------------------------------------

  function NewMemory(): Memory { Memory([], seq(CAPACITY, _ => None)) }

  function Start(mode: Mode, programs: seq<seq<Pair>>): Config {
    Config(mode, programs, NewMemory(), seq(CAPACITY, _ => None),
           seq(|programs|, _ => Outside), seq(|programs|, _ => 0), [])
  }

  lemma StartOk(mode: Mode, programs: seq<seq<Pair>>)
    ensures Inv(Start(mode, programs))
  {
    var s := Start(mode, programs);
    assert ListsOf(s.memory) == NoLists();
    forall t | 0 <= t < |programs| ensures AddsOf(s.log, t) == s.programs[t][..Committed(s, t)] {}
  }

  /** A schedule says which thread makes each step. */
  function Run(s: Config, schedule: seq<nat>): Config
    requires Inv(s)
    decreases |schedule|
  {
    hide Inv, Step;
    if schedule == [] then s else
    StepKeeps(s, schedule[0]);
    Run(Step(s, schedule[0]), schedule[1..])
  }

  /** Every interleaving of every number of threads keeps the invariant. */
  lemma {:induction false} RunKeeps(s: Config, schedule: seq<nat>)
    requires Inv(s)
    ensures Inv(Run(s, schedule)) && Run(s, schedule).programs == s.programs && Run(s, schedule).mode == s.mode
    decreases |schedule|
  {
    hide Inv, Step;
    if schedule != [] {
      StepKeeps(s, schedule[0]);
      RunKeeps(Step(s, schedule[0]), schedule[1..]);
    }
  }

  predicate Quiescent(s: Config) {
    Sizes(s) && forall t :: 0 <= t < |s.programs| ==> s.place[t] == Outside && s.done[t] == |s.programs[t]|
  }

  /** A sequence of adds that takes the adds of each thread in the order of its program. */
  ghost predicate InProgramOrder(log: seq<(nat, Pair)>, programs: seq<seq<Pair>>) {
    && (forall i :: 0 <= i < |log| ==> log[i].0 < |programs|)
    && (forall t :: 0 <= t < |programs| ==> AddsOf(log, t) == programs[t])
  }

  lemma InvRefines(s: Config)
    requires Inv(s)
    ensures ListsOf(s.memory) == AddAll(NoLists(), Adds(s.log))
    ensures forall t :: 0 <= t < |s.programs| ==> AddsOf(s.log, t) <= s.programs[t]
    ensures Quiescent(s) ==> InProgramOrder(s.log, s.programs)
  {
    hide MemoryOk, LocksOk, KnowledgeOk;
    if Quiescent(s) {
      forall t | 0 <= t < |s.programs| ensures AddsOf(s.log, t) == s.programs[t] {
        assert s.programs[t][..Committed(s, t)] == s.programs[t];
      }
    }
  }

  /** Both locked tables refine the sequential one: at any moment, in any interleaving, the
      lists are those of the sequential table after the adds made so far, in an order in which
      each thread has got through a first part of its program; and when all threads are done,
      through all of it. */
  lemma RunsAreSequential(mode: Mode, programs: seq<seq<Pair>>, schedule: seq<nat>)
    ensures Inv(Start(mode, programs)) && Inv(Run(Start(mode, programs), schedule))
    ensures var s := Run(Start(mode, programs), schedule);
      && ListsOf(s.memory) == AddAll(NoLists(), Adds(s.log))
      && (forall t :: 0 <= t < |programs| ==> AddsOf(s.log, t) <= programs[t])
      && (Quiescent(s) ==> InProgramOrder(s.log, programs))
  {
    StartOk(mode, programs);
    RunKeeps(Start(mode, programs), schedule);
    InvRefines(Run(Start(mode, programs), schedule));
    hide Run, Step, Inv;
  }

  // ---- Nothing lost, nothing invented -------------------------------------------------

  lemma {:induction false} AddIsLogged(log: seq<(nat, Pair)>, t: nat, a: Pair)
    requires a in AddsOf(log, t)
    ensures a in Adds(log)
  {
    var h, last := log[..|log| - 1], log[|log| - 1];
    if last.0 != t || last.1 != a { AddIsLogged(h, t, a); }
  }

  lemma {:induction false} LoggedIsAdd(log: seq<(nat, Pair)>, a: Pair)
    requires a in Adds(log)
    ensures exists i :: 0 <= i < |log| && log[i].1 == a && a in AddsOf(log, log[i].0)
  {
    var h, last := log[..|log| - 1], log[|log| - 1];
    if last.1 == a {
      assert a in AddsOf(log, last.0);
    } else {
      LoggedIsAdd(h, a);
      var i :| 0 <= i < |h| && h[i].1 == a && a in AddsOf(h, h[i].0);
      assert log[i] == h[i] && a in AddsOf(log, log[i].0);
    }
  }

  lemma {:induction false} MapHasAdds(log: seq<Pair>, k: Key)
    ensures k in MapOf(log) <==> exists i :: 0 <= i < |log| && log[i].0 == k
    ensures k in MapOf(log) ==> (k, MapOf(log)[k]) in log
  {
    if log != [] {
      var h := log[..|log| - 1];
      MapHasAdds(h, k);
      if exists i :: 0 <= i < |h| && h[i].0 == k {
        var i :| 0 <= i < |h| && h[i].0 == k;
        assert log[i].0 == k;
      }
    }
  }

  /** The value of a key is the one that its last add gave it. */
  lemma {:induction false} LastAddCounts(log: seq<(nat, Pair)>, k: Key) returns (i: nat)
    requires k in MapOf(Adds(log))
    ensures i < |log| && log[i].1 == (k, MapOf(Adds(log))[k])
    ensures forall j :: i < j < |log| ==> log[j].1.0 != k
  {
    var h, last := log[..|log| - 1], log[|log| - 1];
    assert Adds(log)[..|log| - 1] == Adds(h);
    if last.1.0 == k {
      i := |log| - 1;
    } else {
      i := LastAddCounts(h, k);
    }
  }

  ghost predicate AddedLater(log: seq<(nat, Pair)>, i: nat, a: Pair) {
    exists i' :: i < i' < |log| && log[i'].1 == a
  }

  lemma LaterInLonger(log: seq<(nat, Pair)>, i: nat, a: Pair)
    requires log != [] && AddedLater(log[..|log| - 1], i, a)
    ensures AddedLater(log, i, a)
  {
    var h := log[..|log| - 1];
    var i' :| i < i' < |h| && h[i'].1 == a;
    assert log[i'] == h[i'];
  }

  /** The later adds of the same thread are later in the log. */
  lemma {:induction false} LaterAdds(log: seq<(nat, Pair)>, i: nat, t: nat) returns (j: nat)
    requires i < |log| && log[i].0 == t
    ensures j < |AddsOf(log, t)| && AddsOf(log, t)[j] == log[i].1
    ensures forall j' :: j < j' < |AddsOf(log, t)| ==> AddedLater(log, i, AddsOf(log, t)[j'])
  {
    var h, last := log[..|log| - 1], log[|log| - 1];
    if i == |log| - 1 {
      j := |AddsOf(h, t)|;
    } else {
      j := LaterAdds(h, i, t);
      forall j' | j < j' < |AddsOf(log, t)| ensures AddedLater(log, i, AddsOf(log, t)[j']) {
        if j' < |AddsOf(h, t)| {
          LaterInLonger(log, i, AddsOf(h, t)[j']);
        } else {
          assert log[|log| - 1].1 == AddsOf(log, t)[j'];
        }
      }
    }
  }

  /** When all threads are done, the value of a key is that of the last add of the key in the
      program of some thread. */
  lemma LastAddWins(mode: Mode, programs: seq<seq<Pair>>, schedule: seq<nat>, k: Key) returns (t: nat, j: nat)
    requires Inv(Start(mode, programs)) && Quiescent(Run(Start(mode, programs), schedule))
    requires MemoryOk(Run(Start(mode, programs), schedule).memory)
    requires Lookup(ListsOf(Run(Start(mode, programs), schedule).memory), k).Some?
    ensures t < |programs| && j < |programs[t]|
    ensures programs[t][j] == (k, Lookup(ListsOf(Run(Start(mode, programs), schedule).memory), k).value)
    ensures forall j' :: j < j' < |programs[t]| ==> programs[t][j'].0 != k
  {
    RunsAreSequential(mode, programs, schedule);
    var log := Run(Start(mode, programs), schedule).log;
    hide Start, Run, Step, Inv, MemoryOk;
    TableIsMap(Adds(log), k);
    var i := LastAddCounts(log, k);
    t := log[i].0;
    j := LaterAdds(log, i, t);
    assert AddsOf(log, t) == programs[t];
  }

  /** When all threads are done, every key they added is in the table, with a value that some
      thread added for it; and nothing else is. */
  lemma NothingLost(mode: Mode, programs: seq<seq<Pair>>, schedule: seq<nat>, k: Key)
    requires Inv(Start(mode, programs)) && Quiescent(Run(Start(mode, programs), schedule))
    ensures MemoryOk(Run(Start(mode, programs), schedule).memory)
    ensures var found := Lookup(ListsOf(Run(Start(mode, programs), schedule).memory), k);
      && (found.Some? <==> exists t, j :: 0 <= t < |programs| && 0 <= j < |programs[t]| && programs[t][j].0 == k)
      && (found.Some? ==> exists t :: 0 <= t < |programs| && (k, found.value) in programs[t])
  {
    RunsAreSequential(mode, programs, schedule);
    var log := Run(Start(mode, programs), schedule).log;
    hide Start, Run, Step, Inv;
    TableIsMap(Adds(log), k);
    MapHasAdds(Adds(log), k);
    if k in MapOf(Adds(log)) {
      LoggedIsAdd(log, (k, MapOf(Adds(log))[k]));
    }
    forall t, j | 0 <= t < |programs| && 0 <= j < |programs[t]| && programs[t][j].0 == k ensures k in MapOf(Adds(log)) {
      AddIsLogged(log, t, programs[t][j]);
    }
  }
}
