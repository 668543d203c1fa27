/** Chains of joins: when a join may block without stopping everything, and when the process
    ends. */
module WutProgress {
  import opened FiniteSets
  import opened WutThreads
  import opened WutInvariant
  import opened WutCalls

  /** The thread reached from `i` by following `n` join edges, or -1. */
  function After(s: State, i: int, n: nat): int
    decreases n
  {
    if n == 0 then i else if Blocked(s, i) then After(s, Thread(s, i).joinTo, n - 1) else -1
  }

  ghost predicate LeadsTo(s: State, i: int, j: int) { exists n: nat :: After(s, i, n) == j }

  /** Numbers that decrease along every join edge. */
  ghost predicate Ranked(s: State, rank: seq<nat>) {
    && |rank| == |s.slots|
    && forall i :: 0 <= i < |rank| && Blocked(s, i) ==> rank[Thread(s, i).joinTo] < rank[i]
  }

  ghost predicate Acyclic(s: State) { exists rank :: Ranked(s, rank) }

  /** No chain of joins comes back to where it started. */
  lemma {:induction false} RanksDecrease(s: State, rank: seq<nat>, i: int, n: nat)
    requires Ranked(s, rank) && n > 0 && After(s, i, n) >= 0
    ensures Blocked(s, i) && 0 <= After(s, i, n) < |rank| && rank[After(s, i, n)] < rank[i]
    decreases n
  {
    if n > 1 { RanksDecrease(s, rank, Thread(s, i).joinTo, n - 1); }
  }

  lemma AcyclicHasNoCycle(s: State, i: int, n: nat)
    requires Acyclic(s) && n > 0 && i >= 0
    ensures After(s, i, n) != i
  {
    var rank :| Ranked(s, rank);
    if After(s, i, n) >= 0 { RanksDecrease(s, rank, i, n); }
  }

  /** Nor does any thread wait, through others, for itself. */
  ghost predicate NoCycle(s: State) { forall i: nat, n: nat :: n > 0 ==> After(s, i, n) != i }

  lemma {:induction false} AfterAfter(s: State, i: int, m: nat, n: nat)
    requires After(s, i, m) >= 0
    ensures After(s, After(s, i, m), n) == After(s, i, m + n)
    decreases m
  {
    if m > 0 { AfterAfter(s, Thread(s, i).joinTo, m - 1, n); }
  }

  lemma {:induction false} ChainStaysInTable(s: State, i: int, n: nat)
    requires 0 <= i < |s.slots|
    ensures After(s, i, n) < |s.slots| && (After(s, i, n) >= 0 ==> forall m: nat :: m <= n ==> After(s, i, m) >= 0)
    ensures After(s, i, n) >= -1
    decreases n
  {
    if n > 0 && Blocked(s, i) {
      var t := Thread(s, i).joinTo;
      ChainStaysInTable(s, t, n - 1);
      forall m: nat | m <= n && After(s, i, n) >= 0 ensures After(s, i, m) >= 0 {
        if m > 0 { assert After(s, t, m - 1) >= 0; }
      }
    }
  }

  /** Without cycles a chain is shorter than the table. */
  lemma ChainIsShort(s: State, i: int)
    requires NoCycle(s) && 0 <= i < |s.slots|
    ensures After(s, i, |s.slots|) == -1
  {
    var n := |s.slots|;
    ChainStaysInTable(s, i, n);
    if After(s, i, n) >= 0 {
      var q := seq(n + 1, m requires 0 <= m <= n => After(s, i, m));
      forall m | 0 <= m < |q| ensures 0 <= q[m] < n { ChainStaysInTable(s, i, m); }
      var k, l := Pigeonhole(q, n);
      AfterAfter(s, i, k, l - k);
    }
  }

  /** The number of joins on the chain from `i`, if it has at most `fuel`. */
  function ChainLength(s: State, i: int, fuel: nat): nat
    decreases fuel
  {
    if fuel == 0 || !Blocked(s, i) then 0 else 1 + ChainLength(s, Thread(s, i).joinTo, fuel - 1)
  }

  lemma {:induction false} EnoughFuel(s: State, i: int, n: nat)
    requires i >= 0 && After(s, i, n) == -1
    ensures ChainLength(s, i, n + 1) == ChainLength(s, i, n)
    decreases n
  {
    if n > 0 && Blocked(s, i) { EnoughFuel(s, Thread(s, i).joinTo, n - 1); }
  }

  /** Ranks exist exactly when there are no cycles. */
  lemma AcyclicIff(s: State)
    ensures Acyclic(s) <==> NoCycle(s)
  {
    if Acyclic(s) {
      forall i: nat, n: nat | n > 0 ensures After(s, i, n) != i { AcyclicHasNoCycle(s, i, n); }
    }
    if NoCycle(s) {
      var n := |s.slots|;
      var rank := seq(n, i requires 0 <= i < n => ChainLength(s, i, n));
      forall i | 0 <= i < n && Blocked(s, i) ensures rank[Thread(s, i).joinTo] < rank[i] {
        var t := Thread(s, i).joinTo;
        ChainIsShort(s, i);
        EnoughFuel(s, t, n - 1);
      }
      assert Ranked(s, rank);
    }
  }

  /** Every chain ends at a thread that is running or ready. */
  lemma {:induction false} ChainEnds(s: State, rank: seq<nat>, i: int) returns (j: int)
    requires Inv(s) && Ranked(s, rank) && Live(s, i)
    ensures LeadsTo(s, i, j) && Live(s, j) && !Blocked(s, j) && (j == s.current || j in s.queue)
    decreases rank[i]
  {
    if Blocked(s, i) {
      j := ChainEnds(s, rank, Thread(s, i).joinTo);
      LeadsBack(s, i, j);
    } else {
      j := i;
      assert After(s, i, 0) == j;
    }
  }

  /** Along an edge, what can be reached stays the same. */
  lemma LeadsBack(s: State, i: int, j: int)
    requires Blocked(s, i)
    ensures LeadsTo(s, i, j) <==> i == j || LeadsTo(s, Thread(s, i).joinTo, j)
  {
    var t := Thread(s, i).joinTo;
    if LeadsTo(s, i, j) && i != j {
      var n: nat :| After(s, i, n) == j;
      assert After(s, t, n - 1) == j;
    }
    if LeadsTo(s, t, j) {
      var n: nat :| After(s, t, n) == j;
      assert After(s, i, n + 1) == j;
    }
    assert After(s, i, 0) == i;
  }

  // ---- Blocking joins -----------------------------------------------------------------

  /** A blocking join whose target does not wait, through others, for the caller, always
      finds a ready thread. */
  lemma JoinFindsReadyThread(s: State, id: int)
    requires MayBlock(s, id) && Acyclic(s) && !LeadsTo(s, id, s.current)
    ensures s.queue != []
  {
    var rank :| Ranked(s, rank);
    var j := ChainEnds(s, rank, id);
  }

  /** Ranks after the caller has been put below its target: everything that waits for the
      caller moves up. */
  ghost function Raised(s: State, rank: seq<nat>, id: int): seq<nat>
    requires |rank| == |s.slots| && 0 <= id < |rank|
  {
    seq(|rank|, i requires 0 <= i < |rank| => if LeadsTo(s, i, s.current) then rank[i] + rank[id] + 1 else rank[i])
  }

  lemma RaisedIsRank(s: State, s': State, id: int, rank: seq<nat>)
    requires MayBlock(s, id) && Ranked(s, rank) && BlockedOn(s, s', id) && !LeadsTo(s, id, s.current)
    ensures Ranked(s', Raised(s, rank, id))
  {
    var r := Raised(s, rank, id);
    BlockedFrame(s, s', id);
    hide Inv, Blocked, LeadsTo;
    forall i | 0 <= i < |r| && Blocked(s', i) ensures r[Thread(s', i).joinTo] < r[i] {
      if i == s.current {
        Here(s, i);
        TargetOfCaller(s, s', id);
      } else {
        EdgeStays(s, s', id, i);
        LeadsBack(s, i, s.current);
      }
    }
  }

  lemma Here(s: State, i: int)
    ensures LeadsTo(s, i, i)
  {
    assert After(s, i, 0) == i;
  }

  lemma TargetOfCaller(s: State, s': State, id: int)
    requires Live(s, id) && id != s.current && BlockedOn(s, s', id)
    ensures Occupied(s', s.current) && Thread(s', s.current).joinTo == id
  {
    assert Thread(s, id).id == id && Thread(s, s.current).id == s.current;
  }

  lemma EdgeStays(s: State, s': State, id: int, i: int)
    requires MayBlock(s, id) && BlockedOn(s, s', id) && Blocked(s', i) && i != s.current
    ensures Blocked(s, i) && Thread(s', i).joinTo == Thread(s, i).joinTo
  {
    BlockedFrame(s, s', id);
  }

  /** A chain that ends at the caller is still there once the caller has blocked. */
  lemma {:induction false} ChainStays(s: State, s': State, id: int, i: int, n: nat)
    requires MayBlock(s, id) && BlockedOn(s, s', id) && After(s, i, n) == s.current
    ensures After(s', i, n) == s.current
    decreases n
  {
    hide Inv, Blocked;
    if n > 0 && Blocked(s, i) {
      Present(s, i);
      ChainStays(s, s', id, Thread(s, i).joinTo, n - 1);
      StillBlocked(s, s', id, i);
    }
  }

  lemma StillBlocked(s: State, s': State, id: int, i: int)
    requires MayBlock(s, id) && BlockedOn(s, s', id) && Blocked(s, i)
    ensures Blocked(s', i) && i != s.current && Thread(s', i).joinTo == Thread(s, i).joinTo
  {
    BlockedFrame(s, s', id);
    assert Thread(s, id).id == id && Thread(s, i).id == i && Thread(s, s.current).id == s.current;
    BlockedFacts(s, i);
  }

  /** Blocking keeps the joins free of cycles exactly when the chain of the target does not
      lead back to the caller. */
  lemma BlockAcyclicIff(s: State, id: int)
    requires MayBlock(s, id) && Acyclic(s)
    ensures Acyclic(Block(s, id)) <==> !LeadsTo(s, id, s.current)
  {
    BlockEffect(s, id);
    var s' := Block(s, id);
    hide Block, Inv;
    if LeadsTo(s, id, s.current) {
      var n: nat :| After(s, id, n) == s.current;
      CycleCloses(s, s', id, n);
      if Acyclic(s') { AcyclicHasNoCycle(s', s.current, n + 1); }
    } else {
      var rank :| Ranked(s, rank);
      RaisedIsRank(s, s', id, rank);
    }
  }

  lemma CycleCloses(s: State, s': State, id: int, n: nat)
    requires MayBlock(s, id) && BlockedOn(s, s', id) && After(s, id, n) == s.current
    ensures After(s', s.current, n + 1) == s.current
  {
    ChainStays(s, s', id, id, n);
    CallerIsBlocked(s, s', id);
  }

  lemma CallerIsBlocked(s: State, s': State, id: int)
    requires MayBlock(s, id) && BlockedOn(s, s', id)
    ensures Blocked(s', s.current) && Thread(s', s.current).joinTo == id
  {
    BlockedFrame(s, s', id);
    TargetOfCaller(s, s', id);
  }

  // ---- Other calls add no edges -------------------------------------------------------

  ghost predicate FewerEdges(s: State, s': State) {
    && |s'.slots| >= |s.slots|
    && forall i :: Blocked(s', i) ==> Blocked(s, i) && Thread(s', i).joinTo == Thread(s, i).joinTo
  }

  lemma FewerEdgesAcyclic(s: State, s': State)
    requires Acyclic(s) && FewerEdges(s, s')
    ensures Acyclic(s')
  {
    var rank :| Ranked(s, rank);
    var r: seq<nat> := rank + seq(|s'.slots| - |s.slots|, _ => 0);
    forall i | 0 <= i < |r| && Blocked(s', i) ensures r[Thread(s', i).joinTo] < r[i] {
      assert Blocked(s, i);
    }
    assert Ranked(s', r);
  }

  lemma SwitchedEdges(s: State, s': State)
    requires s.queue != [] && Switched(s, s')
    ensures FewerEdges(s, s')
  {
    SwitchFrame(s, s');
    hide Blocked;
    forall i | Occupied(s, i) ensures Thread(s', i).joinTo == Thread(s, i).joinTo {}
    forall i | Blocked(s', i) ensures Occupied(s, i) { Present(s, i); }
  }

  lemma Present(s: State, i: int)
    requires Blocked(s, i)
    ensures Occupied(s, i)
  {
  }

  lemma TerminatedNoEdges(s: State, s': State, status: int)
    requires Inv(s) && Terminated(s, s', status)
    ensures FewerEdges(s, s')
  {
    TerminatedFrame(s, s', status);
  }

  // ---- The end of the process ---------------------------------------------------------

  /** With acyclic joins, wut_exit ends the process exactly when no other thread is live. */
  lemma ExitFinishesIff(s: State, status: int)
    requires Inv(s) && Acyclic(s)
    ensures Exit(s, status).Finished? <==> forall i :: Live(s, i) ==> i == s.current
  {
    TerminateSuspends(s, status);
    var s' := Terminate(s, status);
    hide Terminate;
    if s'.queue == [] {
      forall i | Live(s, i) ensures i == s.current { NobodyLeft(s, i); }
    } else {
      TerminatedFrame(s, s', status);
      assert Live(s', s'.queue[0]);
    }
  }

  lemma NobodyLeft(s: State, i: int)
    requires Inv(s) && Acyclic(s) && Live(s, i) && s.queue == [] && !Thread(s, s.current).join
    ensures i == s.current
  {
    var rank :| Ranked(s, rank);
    var j := ChainEnds(s, rank, i);
    if i != s.current {
      var n: nat :| After(s, i, n) == s.current;
      NobodyArrives(s, i, n);
    }
  }

  /** Without a waiter at its end, a chain that reaches the running thread is empty. */
  lemma {:induction false} NobodyArrives(s: State, i: int, n: nat)
    requires Inv(s) && !Thread(s, s.current).join && After(s, i, n) == s.current
    ensures i == s.current
    decreases n
  {
    if n > 0 && Blocked(s, i) {
      NobodyArrives(s, Thread(s, i).joinTo, n - 1);
    }
  }
}
