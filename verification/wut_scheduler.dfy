/** The scheduler as it runs: one object with its thread table, ready queue and counters,
    updated in place. Each call is proved equal to the function that describes it. */
module WutScheduler {
  import opened Wrappers
  import opened WutThreads

  /** What a call of the object does. */
  datatype Effect = ReturnsValue(v: int) | SwitchesThread(status: Option<int>) | EndsProcess | BadPointer

  /** The effect and the new state of a call, compared with its description. */
  ghost predicate Matches(e: Effect, now: State, o: Outcome) {
    match o
    case Returns(s, v) => e == ReturnsValue(v) && now == s
    case Switches(s, status) => e == SwitchesThread(status) && now == s
    case Finished => e == EndsProcess
    case Crashed => e == BadPointer
  }

  class Scheduler {
    var heap: seq<Tcb>
    var slots: array<Option<nat>>
    var queue: seq<nat>
    var threadNum: nat
    var current: nat

    ghost predicate Valid()
      reads this, slots
    {
      WellFormed(Threads(heap, slots[..], queue, threadNum, current))
    }

    /** The current state as a value. */
    ghost function Now(): State
      requires Valid()
      reads this, slots
    {
      Threads(heap, slots[..], queue, threadNum, current)
    }

    /** wut_init */
    constructor ()
      ensures Valid() && fresh(slots) && Now() == Init()
    {
      heap := [NewTcb(0)];
      slots := new Option<nat>[INITIAL_SLOTS];
      queue := [];
      threadNum := 1;
      current := 0;
      new;
      for i := 0 to INITIAL_SLOTS
        invariant slots.Length == INITIAL_SLOTS && fresh(slots)
        invariant heap == [NewTcb(0)] && queue == [] && threadNum == 1 && current == 0
        invariant forall j :: 0 <= j < i ==> slots[j] == None
      {
        slots[i] := None;
      }
      slots[0] := Some(0);
      assert slots[..] == Init().slots;
    }

    /** Writing through a pointer to a control block. */
    method SetTcb(p: nat, t: Tcb)
      requires Valid() && p < |heap| && t.id == heap[p].id && TcbOk(Now(), t)
      modifies this`heap
      ensures Valid() && Now() == Store(old(Now()), p, t)
    {
      ghost var r := Store(Now(), p, t);
      heap := heap[p := t];
    }

    method InsertTail(i: nat)
      requires Valid() && Occupied(Now(), i)
      modifies this`queue
      ensures Valid() && Now() == Enqueue(old(Now()), i)
    {
      ghost var r := Enqueue(Now(), i);
      queue := queue + [i];
    }

    /** resize: a table of twice the size, whose upper half is empty. */
    method Resize()
      requires Valid()
      modifies this`slots
      ensures Valid() && fresh(slots) && Now() == WutThreads.Resize(old(Now()))
    {
      ghost var r := WutThreads.Resize(Now());
      var n := slots.Length;
      var table := new Option<nat>[2 * n];
      forall i | 0 <= i < n { table[i] := slots[i]; }
      for i := n to 2 * n
        invariant slots == old(slots) && table != slots && Now() == old(Now())
        invariant forall j :: 0 <= j < n ==> table[j] == slots[j]
        invariant forall j :: n <= j < i ==> table[j] == None
      {
        table[i] := None;
      }
      assert table[..] == r.slots;
      slots := table;
    }

    /** A new control block in slot `i`. */
    method Install(i: nat)
      requires Valid() && i < slots.Length && threadNum < slots.Length
      modifies this`heap, this`threadNum, slots
      ensures Valid() && Now() == WutThreads.Install(old(Now()), i)
    {
      ghost var r := WutThreads.Install(Now(), i);
      slots[i] := Some(|heap|);
      heap := heap + [NewTcb(i)];
      threadNum := threadNum + 1;
      assert slots[..] == r.slots;
    }

    /** The scan of wut_create for the least slot that may be used. */
    method FindFree() returns (r: Option<nat>)
      requires Valid()
      ensures r == FindSlot(Now(), 0)
    {
      for i := 0 to slots.Length
        invariant FindSlot(Now(), 0) == FindSlot(Now(), i)
      {
        if slots[i].None? || (heap[slots[i].value].status != RUNNING && heap[slots[i].value].enable) {
          return Some(i);
        }
      }
      return None;
    }

    /** wut_create */
    method Create() returns (e: Effect)
      requires Valid()
      modifies this, slots
      ensures Valid() && Matches(e, Now(), WutThreads.Create(old(Now())))
    {
      if threadNum >= slots.Length {
        Resize();
      }
      var i := FindFree();
      if i.None? { return BadPointer; }
      Install(i.value);
      InsertTail(i.value);
      return ReturnsValue(i.value);
    }

    /** The head of the queue goes on; a thread inside wut_join then releases the slot of its
        target and reads its status. */
    method RunNext() returns (status: Option<int>)
      requires Valid() && queue != []
      modifies this`heap, this`queue, this`current
      ensures Valid() && Matches(SwitchesThread(status), Now(), Dispatch(old(Now())))
    {
      ghost var s := Now();
      var next := queue[0];
      ghost var s1 := SetCurrent(s, queue[1..], next);
      queue := queue[1..];
      current := next;
      assert Now() == s1;
      var x := slots[next].value;
      match heap[x].place {
        case Elsewhere =>
          return None;
        case InsideJoin(p) =>
          SetTcb(x, heap[x].(place := Elsewhere));
          SetTcb(p, heap[p].(enable := true));
          return Some(heap[p].status);
      }
    }

    /** wut_yield */
    method Yield() returns (e: Effect)
      requires Valid()
      modifies this`heap, this`queue, this`current
      ensures Valid() && Matches(e, Now(), WutThreads.Yield(old(Now())))
    {
      if queue == [] { return ReturnsValue(-1); }
      InsertTail(current);
      var status := RunNext();
      return SwitchesThread(status);
    }

    /** wut_join */
    method Join(id: int) returns (e: Effect)
      requires Valid()
      modifies this`heap, this`queue, this`current
      ensures Valid() && Matches(e, Now(), WutThreads.Join(old(Now()), id))
    {
      hide Dispatch;
      if id < 0 || current == id || id >= threadNum { return ReturnsValue(-1); }
      if slots[id].None? { return BadPointer; }
      var t := slots[id].value;
      if heap[t].status != RUNNING || heap[t].join { return ReturnsValue(heap[t].status); }
      ghost var s := Now();
      var x := slots[current].value;
      SetTcb(x, heap[x].(block := true, joinTo := id, place := InsideJoin(t)));
      SetTcb(t, heap[t].(join := true, enable := false, joinFrom := current));
      assert Now() == Block(s, id);
      if queue == [] { return BadPointer; }
      var status := RunNext();
      return SwitchesThread(status);
    }

    /** wut_exit */
    method Exit(status: int) returns (e: Effect)
      requires Valid()
      modifies this`heap, this`queue, this`current
      ensures Valid() && Matches(e, Now(), WutThreads.Exit(old(Now()), status))
    {
      hide Dispatch;
      ghost var s := Now();
      var x := slots[current].value;
      SetTcb(x, heap[x].(status := if heap[x].status == RUNNING then LowByte(status) else heap[x].status));
      if heap[x].join {
        var w := heap[x].joinFrom;
        SetTcb(x, heap[x].(join := false, joinFrom := -1));
        InsertTail(w);
      }
      assert Now() == Terminate(s, status);
      if queue == [] { return EndsProcess; }
      var v := RunNext();
      return SwitchesThread(v);
    }

    /** wut_cancel */
    method Cancel(id: int) returns (e: Effect)
      requires Valid()
      modifies this`heap, this`queue
      ensures Valid() && Matches(e, Now(), WutThreads.Cancel(old(Now()), id))
    {
      hide Mark, LeaveTarget;
      if id < 0 || id == current || id > threadNum { return ReturnsValue(-1); }
      if id >= slots.Length { return BadPointer; }
      if slots[id].None? || heap[slots[id].value].status != RUNNING { return ReturnsValue(-1); }
      MarkCancelled(id);
      var c := slots[id].value;
      if heap[c].block {
        ReleaseTarget(id);
        return ReturnsValue(0);
      }
      if id !in queue { return BadPointer; }
      RemoveShrinks(queue, id);
      ghost var r := SetCurrent(Now(), Remove(queue, id), current);
      queue := Remove(queue, id);
      return ReturnsValue(0);
    }

    method MarkCancelled(id: int)
      requires Valid() && Occupied(Now(), id)
      modifies this`heap, this`queue
      ensures Valid() && Now() == Mark(old(Now()), id)
    {
      var c := slots[id].value;
      SetTcb(c, heap[c].(status := CANCELLED));
      if heap[c].joinFrom != -1 {
        var w := heap[c].joinFrom;
        SetTcb(slots[w].value, heap[slots[w].value].(join := false, joinTo := -1, block := false));
        InsertTail(w);
      }
    }

    method ReleaseTarget(id: int)
      requires Valid() && Occupied(Now(), id) && Thread(Now(), id).block
      modifies this`heap
      ensures Valid() && Now() == LeaveTarget(old(Now()), id)
    {
      var c := slots[id].value;
      SetTcb(c, heap[c].(block := false));
      var t := slots[heap[c].joinTo].value;
      SetTcb(t, heap[t].(joinFrom := -1, join := false));
    }
  }
}
