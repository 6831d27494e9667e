/** The lock-free multi-producer multi-consumer ring, as a machine whose steps are the
    individual shared-memory accesses of `try_push`, `try_pop` and `size_approx`.

    Any number of threads take steps in any order.  Memory is sequentially consistent and
    the position counters are unbounded. */
module MpmcRing {
  import opened Bits
  import opened Options

  type Tid = nat

  /** What a call on the ring answered. */
  datatype Answer<+T> =
    | PushOk(ticket: nat)
    | PushFull
    | PopOk(ticket: nat, item: Option<T>)
    | PopEmpty
    | Size(n: nat)

  datatype Request<+T> = Push(item: T) | Pop | SizeApprox

  /** Where a thread stands inside a call: the next shared access it will make. */
  datatype Pc<+T> =
    | Ready
    | PushLoadPos(item: T)
    | PushLoadSeq(item: T, pos: nat)
    | PushDecide(item: T, pos: nat, seen: nat)
    | PushWrite(item: T, pos: nat)
    | PushPublish(item: T, pos: nat)
    | PopLoadPos
    | PopLoadSeq(pos: nat)
    | PopDecide(pos: nat, seen: nat)
    | PopRead(pos: nat)
    | PopRecycle(pos: nat, taken: Option<T>)
    | SizeLoadHead
    | SizeLoadTail(head: nat)
    | Returned(answer: Answer<T>)

  datatype Slot<+T> = Slot(sequence: nat, data: Option<T>)

  /** The item pushed under a ticket and the thread that claimed that ticket. */
  datatype Claim<+T> = Claim(owner: Tid, item: T)

  /** The shared memory (capacity, head, tail, slots), every thread's program counter, and
      three history variables that no step reads: who pushed what under each ticket, who
      claimed each popped ticket, and what each finished pop returned. */
  datatype State<+T> = State(
    capacity: nat,
    head: nat,
    tail: nat,
    slots: seq<Slot<T>>,
    threads: map<Tid, Pc<T>>,
    pushed: seq<Claim<T>>,
    poppers: seq<Tid>,
    popped: map<nat, Option<T>>)

  predicate Wf<T>(s: State<T>) {
    s.capacity >= 2 && |s.slots| == s.capacity
  }

  function PcOf<T>(s: State<T>, t: Tid): Pc<T> {
    if t in s.threads then s.threads[t] else Ready
  }

  function SeqAt<T>(s: State<T>, ticket: nat): nat
    requires Wf(s)
  {
    s.slots[SlotOf(ticket, s.capacity)].sequence
  }

  function DataAt<T>(s: State<T>, ticket: nat): Option<T>
    requires Wf(s)
  {
    s.slots[SlotOf(ticket, s.capacity)].data
  }

  function At<T>(s: State<T>, t: Tid, pc: Pc<T>): State<T> {
    s.(threads := s.threads[t := pc])
  }

  function Store<T>(s: State<T>, ticket: nat, slot: Slot<T>): State<T>
    requires Wf(s)
  {
    s.(slots := s.slots[SlotOf(ticket, s.capacity) := slot])
  }

  function Entry<T>(r: Request<T>): Pc<T> {
    match r
    case Push(item) => PushLoadPos(item)
    case Pop => PopLoadPos
    case SizeApprox => SizeLoadHead
  }

  // ------------------------------------------------------------------ try_push

  /** The branch on `seen - pos`: claim with a compare-and-swap that may fail for no
      reason, report "full", or reload the head. */
  function PushBranch<T>(s: State<T>, t: Tid, item: T, pos: nat, seen: nat, spurious: bool): State<T>
    requires Wf(s)
  {
    if seen == pos then
      if s.head == pos && !spurious then
        At(s.(head := pos + 1, pushed := s.pushed + [Claim(t, item)]), t, PushWrite(item, pos))
      else
        At(s, t, PushLoadSeq(item, s.head))
    else if seen < pos then
      At(s, t, Returned(PushFull))
    else
      At(s, t, PushLoadSeq(item, s.head))
  }

  // ------------------------------------------------------------------- try_pop

  function PopBranch<T>(s: State<T>, t: Tid, pos: nat, seen: nat, spurious: bool): State<T>
    requires Wf(s)
  {
    if seen == pos + 1 then
      if s.tail == pos && !spurious then
        At(s.(tail := pos + 1, poppers := s.poppers + [t]), t, PopRead(pos))
      else
        At(s, t, PopLoadSeq(s.tail))
    else if seen < pos + 1 then
      At(s, t, Returned(PopEmpty))
    else
      At(s, t, PopLoadSeq(s.tail))
  }

  /** Moving the item out leaves an empty slot behind. */
  function PopTake<T>(s: State<T>, t: Tid, pos: nat): State<T>
    requires Wf(s)
  {
    At(Store(s, pos, Slot(SeqAt(s, pos), None)), t, PopRecycle(pos, DataAt(s, pos)))
  }

  function PopFinish<T>(s: State<T>, t: Tid, pos: nat, item: Option<T>): State<T>
    requires Wf(s)
  {
    At(Store(s, pos, Slot(pos + s.capacity, DataAt(s, pos))).(popped := s.popped[pos := item]),
       t, Returned(PopOk(pos, item)))
  }

  /** One shared access by thread `t`. */
  function Advance<T>(s: State<T>, t: Tid, spurious: bool): State<T>
    requires Wf(s)
  {
    match PcOf(s, t)
    case Ready => s
    case Returned(_) => s
    case PushLoadPos(item) => At(s, t, PushLoadSeq(item, s.head))
    case PushLoadSeq(item, pos) => At(s, t, PushDecide(item, pos, SeqAt(s, pos)))
    case PushDecide(item, pos, seen) => PushBranch(s, t, item, pos, seen, spurious)
    case PushWrite(item, pos) =>
      At(Store(s, pos, Slot(SeqAt(s, pos), Some(item))), t, PushPublish(item, pos))
    case PushPublish(item, pos) =>
      At(Store(s, pos, Slot(pos + 1, DataAt(s, pos))), t, Returned(PushOk(pos)))
    case PopLoadPos => At(s, t, PopLoadSeq(s.tail))
    case PopLoadSeq(pos) => At(s, t, PopDecide(pos, SeqAt(s, pos)))
    case PopDecide(pos, seen) => PopBranch(s, t, pos, seen, spurious)
    case PopRead(pos) => PopTake(s, t, pos)
    case PopRecycle(pos, item) => PopFinish(s, t, pos, item)
    case SizeLoadHead => At(s, t, SizeLoadTail(s.head))
    case SizeLoadTail(h) => At(s, t, Returned(Size(if h >= s.tail then h - s.tail else 0)))
  }

  /** The scheduler's choice: which thread moves, and whether its compare-and-swap fails
      spuriously.  `Call` lets a thread that is between calls start a new one. */
  datatype Action<+T> = Call(t: Tid, request: Request<T>) | Move(t: Tid, spurious: bool)

  function Next<T>(s: State<T>, a: Action<T>): (s': State<T>)
    requires Wf(s)
    ensures Wf(s') && s'.capacity == s.capacity
  {
    match a
    case Call(t, r) =>
      if PcOf(s, t).Ready? || PcOf(s, t).Returned? then At(s, t, Entry(r)) else s
    case Move(t, spurious) => Advance(s, t, spurious)
  }

  function Run<T>(s: State<T>, schedule: seq<Action<T>>): (s': State<T>)
    requires Wf(s)
    ensures Wf(s') && s'.capacity == s.capacity
  {
    if schedule == [] then s
    else Next(Run(s, schedule[..|schedule| - 1]), schedule[|schedule| - 1])
  }

  function Init<T>(capacity: nat): (s: State<T>)
    requires capacity >= 2
    ensures Wf(s) && s.capacity == capacity
  {
    State(capacity, 0, 0, seq(capacity, i requires i >= 0 => Slot(i, None)), map[], [], [], map[])
  }

  /** The constructor's capacity: the least power of two that is at least two and at least
      what was asked for. */
  method RoundCapacity(minCapacity: nat) returns (capacity: nat)
    ensures IsPowerOfTwo(capacity) && capacity >= 2 && capacity >= minCapacity
    ensures forall c: nat :: IsPowerOfTwo(c) && c >= 2 && c >= minCapacity ==> capacity <= c
  {
    capacity := 2;
    assert IsPowerOfTwo(1);
    while capacity < minCapacity
      invariant IsPowerOfTwo(capacity) && capacity >= 2
      invariant capacity == 2 || capacity / 2 < minCapacity
      decreases minCapacity - capacity
    {
      DoubledPower(capacity);
      capacity := 2 * capacity;
    }
    forall c: nat | IsPowerOfTwo(c) && c >= 2 && c >= minCapacity ensures capacity <= c {
      if c < capacity {
        NoPowerBetween(c, capacity);
      }
    }
  }

  lemma DoubledPower(a: nat)
    requires IsPowerOfTwo(a)
    ensures IsPowerOfTwo(2 * a) && 2 * a / 2 == a
  {
  }

  /** The constructor: round the capacity up and number the slots, so that slot i waits for
      ticket i. */
  method NewRing<T>(minCapacity: nat) returns (s: State<T>)
    ensures IsPowerOfTwo(s.capacity) && s.capacity >= 2 && s.capacity >= minCapacity
    ensures s == Init(s.capacity)
  {
    var capacity := RoundCapacity(minCapacity);
    var slots: seq<Slot<T>> := [];
    for i := 0 to capacity
      invariant |slots| == i
      invariant forall j :: 0 <= j < i ==> slots[j] == Slot(j, None)
    {
      slots := slots + [Slot(i, None)];
    }
    s := State(capacity, 0, 0, slots, map[], [], [], map[]);
    assert slots == Init<T>(capacity).slots;
  }

  lemma {:induction false} NoPowerBetween(a: nat, b: nat)
    requires IsPowerOfTwo(a) && IsPowerOfTwo(b) && a < b
    ensures 2 * a <= b
    decreases a
  {
    if a > 1 {
      NoPowerBetween(a / 2, b / 2);
    }
  }
}
