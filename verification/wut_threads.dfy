/** The cooperative thread scheduler: its data, and one function per call of its interface. */
module WutThreads {
  import opened Wrappers

  /** Where a suspended thread goes on: inside wut_join, holding a pointer to the control
      block it waits for, or anywhere else. */
  datatype Place = Elsewhere | InsideJoin(target: nat)

  datatype Tcb = Tcb(
    id: nat, status: int, join: bool, joinFrom: int, joinTo: int, block: bool, enable: bool, place: Place)

  /** `heap` holds every control block ever allocated, `slots` is TCB_ARRAY with its pointers
      into the heap, `queue` the ready queue. */
  datatype Threads = Threads(
    heap: seq<Tcb>, slots: seq<Option<nat>>, queue: seq<nat>, threadNum: nat, current: nat)

  const INITIAL_SLOTS: nat := 256
  const RUNNING := -1
  const CANCELLED := 128

  predicate Occupied(s: Threads, i: int) {
    0 <= i < |s.slots| && s.slots[i].Some? && s.slots[i].value < |s.heap|
  }

  /** Every pointer a control block leads to can be followed. */
  predicate TcbOk(s: Threads, t: Tcb) {
    && (t.joinFrom == -1 || Occupied(s, t.joinFrom))
    && (t.join ==> t.joinFrom != -1)
    && (t.block ==> Occupied(s, t.joinTo))
    && (t.place.InsideJoin? ==> t.place.target < |s.heap|)
  }

  predicate WellFormed(s: Threads) {
    && s.threadNum <= |s.slots| && Occupied(s, s.current)
    && (forall i :: 0 <= i < |s.slots| && s.slots[i].Some? ==> Occupied(s, i) && s.heap[s.slots[i].value].id == i)
    && (forall k :: 0 <= k < |s.queue| ==> Occupied(s, s.queue[k]))
    && (forall p :: 0 <= p < |s.heap| ==> TcbOk(s, s.heap[p]))
  }

  type State = s: Threads | WellFormed(s)
    witness Threads([NewTcb(0)], [Some(0)], [], 1, 0)

  function NewTcb(i: nat): Tcb { Tcb(i, RUNNING, false, -1, -1, false, true, Elsewhere) }

  /** The control block in slot `i`. */
  function Thread(s: State, i: int): Tcb
    requires Occupied(s, i)
  {
    s.heap[s.slots[i].value]
  }

  function Pointer(s: State, i: int): nat
    requires Occupied(s, i)
  {
    s.slots[i].value
  }

  /** Writing through a pointer. */
  function Store(s: State, p: nat, t: Tcb): (r: State)
    requires p < |s.heap| && t.id == s.heap[p].id && TcbOk(s, t)
  {
    var r := s.(heap := s.heap[p := t]);
    assert forall i :: Occupied(r, i) == Occupied(s, i);
    assert forall q :: 0 <= q < |s.heap| ==> TcbOk(s, r.heap[q]);
    r
  }

  function Enqueue(s: State, i: int): State
    requires Occupied(s, i)
  {
    var r := s.(queue := s.queue + [i]);
    assert forall j :: Occupied(r, j) == Occupied(s, j);
    assert forall p :: 0 <= p < |s.heap| ==> TcbOk(s, s.heap[p]);
    r
  }

  // ---- Switching ----------------------------------------------------------------------

  /** What a call does: it returns a value to its caller; or it leaves the processor to
      another thread, which goes on with the value of its own wut_join if it was suspended
      there; or the process ends with exit(0); or it follows a bad pointer. */
  datatype Outcome = Returns(s: State, v: int) | Switches(s: State, status: Option<int>) | Finished | Crashed

  /** The first thread of the queue goes on. A thread inside wut_join then releases the slot
      of its target and reads its status. */
  function Dispatch(s: State): Outcome
    requires s.queue != []
  {
    var next := s.queue[0];
    var s1 := SetCurrent(s, s.queue[1..], next);
    match Thread(s1, next).place
    case Elsewhere => Switches(s1, None)
    case InsideJoin(p) =>
      var s2 := Store(s1, Pointer(s1, next), Thread(s1, next).(place := Elsewhere));
      var s3 := Store(s2, p, s2.heap[p].(enable := true));
      Switches(s3, Some(s3.heap[p].status))
  }

  function SetCurrent(s: State, queue: seq<nat>, i: nat): State
    requires Occupied(s, i) && forall k :: 0 <= k < |queue| ==> queue[k] in s.queue
  {
    var r := s.(queue := queue, current := i);
    assert forall j :: Occupied(r, j) == Occupied(s, j);
    assert forall p :: 0 <= p < |s.heap| ==> TcbOk(s, s.heap[p]);
    r
  }

  // ---- The calls ----------------------------------------------------------------------

  /** wut_init */
  function Init(): State {
    Threads([NewTcb(0)], [Some(0)] + seq(INITIAL_SLOTS - 1, _ => None), [], 1, 0)
  }

  /** resize */
  function Resize(s: State): State {
    var r := s.(slots := s.slots + seq(|s.slots|, _ => None));
    assert forall i :: Occupied(r, i) == Occupied(s, i);
    assert forall p :: 0 <= p < |s.heap| ==> TcbOk(s, s.heap[p]);
    r
  }

  /** A slot that wut_create may use. */
  predicate Available(s: State, i: nat)
    requires i < |s.slots|
  {
    s.slots[i].None? || (Thread(s, i).status != RUNNING && Thread(s, i).enable)
  }

  function FindSlot(s: State, i: nat): (r: Option<nat>)
    requires i <= |s.slots|
    ensures r.Some? ==> i <= r.value < |s.slots| && Available(s, r.value)
    ensures forall j :: i <= j < (if r.Some? then r.value else |s.slots|) ==> !Available(s, j)
    decreases |s.slots| - i
  {
    if i == |s.slots| then None else if Available(s, i) then Some(i) else FindSlot(s, i + 1)
  }

  function Install(s: State, i: nat): State
    requires i < |s.slots| && s.threadNum < |s.slots|
  {
    var r := s.(heap := s.heap + [NewTcb(i)], slots := s.slots[i := Some(|s.heap|)], threadNum := s.threadNum + 1);
    assert forall j :: Occupied(s, j) ==> Occupied(r, j);
    assert forall p :: 0 <= p < |s.heap| ==> TcbOk(s, s.heap[p]);
    r
  }

  /** wut_create. Without a slot the new thread would keep an uninitialised id. */
  function Create(s: State): Outcome {
    var s1 := if s.threadNum >= |s.slots| then Resize(s) else s;
    match FindSlot(s1, 0)
    case None => Crashed
    case Some(i) => Returns(Enqueue(Install(s1, i), i), i)
  }

  /** In wut_cancel, the thread waiting for the cancelled one may go on. */
  function Release(s: State, w: int): State
    requires Occupied(s, w)
  {
    Enqueue(Store(s, Pointer(s, w), Thread(s, w).(join := false, joinTo := -1, block := false)), w)
  }

  /** The first part of wut_cancel. */
  function Mark(s: State, id: int): State
    requires Occupied(s, id)
  {
    var s1 := Store(s, Pointer(s, id), Thread(s, id).(status := CANCELLED));
    if Thread(s1, id).joinFrom != -1 then Release(s1, Thread(s1, id).joinFrom) else s1
  }

  /** Taking the queue node of a thread out of the queue. */
  function Remove(queue: seq<nat>, i: nat): seq<nat> {
    if queue == [] then []
    else if queue[|queue| - 1] == i then queue[..|queue| - 1]
    else Remove(queue[..|queue| - 1], i) + [queue[|queue| - 1]]
  }

  lemma RemoveShrinks(queue: seq<nat>, i: nat)
    ensures forall k :: 0 <= k < |Remove(queue, i)| ==> Remove(queue, i)[k] in queue
  {
  }

  predicate CancelRefused(s: State, id: int) {
    id < 0 || id == s.current || id > s.threadNum
    || (id < |s.slots| && (s.slots[id].None? || Thread(s, id).status != RUNNING))
  }

  /** wut_cancel */
  function Cancel(s: State, id: int): Outcome {
    if CancelRefused(s, id) then Returns(s, -1)
    else if id >= |s.slots| then Crashed
    else
      var s1 := Mark(s, id);
      if Thread(s1, id).block then Returns(LeaveTarget(s1, id), 0)
      else if id in s1.queue then
        RemoveShrinks(s1.queue, id);
        Returns(SetCurrent(s1, Remove(s1.queue, id), s1.current), 0)
      else Crashed
  }

  /** The second part of wut_cancel, for a thread that is joining another. */
  function LeaveTarget(s: State, id: int): State
    requires Occupied(s, id) && Thread(s, id).block
  {
    var s1 := Store(s, Pointer(s, id), Thread(s, id).(block := false));
    var t := Thread(s, id).joinTo;
    Store(s1, Pointer(s1, t), Thread(s1, t).(joinFrom := -1, join := false))
  }

  predicate JoinRefused(s: State, id: int) { id < 0 || s.current == id || id >= s.threadNum }

  /** The target is not running any more, or another thread waits for it already. */
  predicate JoinReturnsAtOnce(s: State, id: int)
    requires Occupied(s, id)
  {
    Thread(s, id).status != RUNNING || Thread(s, id).join
  }

  /** The writes of wut_join before it switches. */
  function Block(s: State, id: int): State
    requires Occupied(s, id)
  {
    var s1 := Store(s, Pointer(s, s.current),
      Thread(s, s.current).(block := true, joinTo := id, place := InsideJoin(Pointer(s, id))));
    Store(s1, Pointer(s1, id), Thread(s1, id).(join := true, enable := false, joinFrom := s.current))
  }

  /** wut_join */
  function Join(s: State, id: int): Outcome {
    if JoinRefused(s, id) then Returns(s, -1)
    else if s.slots[id].None? then Crashed
    else if JoinReturnsAtOnce(s, id) then Returns(s, Thread(s, id).status)
    else if s.queue == [] then Crashed
    else Dispatch(Block(s, id))
  }

  /** wut_yield */
  function Yield(s: State): Outcome {
    if s.queue == [] then Returns(s, -1) else Dispatch(Enqueue(s, s.current))
  }

  /** The low byte of an int, as `status & 0xFF` gives it for either sign. */
  function LowByte(status: int): (b: int)
    ensures 0 <= b < 256 && (status - b) % 256 == 0
  {
    status % 256
  }

  /** wut_exit up to the switch. */
  function Terminate(s: State, status: int): State {
    var x := Thread(s, s.current);
    var s1 := Store(s, Pointer(s, s.current),
      x.(status := if x.status == RUNNING then LowByte(status) else x.status));
    if !x.join then s1 else
    Enqueue(Store(s1, Pointer(s1, s.current), Thread(s1, s.current).(join := false, joinFrom := -1)), x.joinFrom)
  }

  /** wut_exit */
  function Exit(s: State, status: int): Outcome {
    var s1 := Terminate(s, status);
    if s1.queue == [] then Finished else Dispatch(s1)
  }

  datatype Call = CallCreate | CallCancel(id: int) | CallJoin(id: int) | CallYield | CallExit(status: int)

  /** A call made by the current thread. A thread function that returns calls wut_exit(0). */
  function Step(s: State, c: Call): Outcome {
    match c
    case CallCreate => Create(s)
    case CallCancel(id) => Cancel(s, id)
    case CallJoin(id) => Join(s, id)
    case CallYield => Yield(s)
    case CallExit(status) => Exit(s, status)
  }
}
