/** The blocking queue around the ring: a pop that spins, yields and then sleeps on a
    condition variable, and the pushes and shutdowns that wake it.

    Many threads push and shut down; one thread (`consumer`) pops, clears and re-arms, which
    is how both queues of the library are used. */
module BlockingQueue {
  import opened Options
  import opened MpmcRing

  const SPIN_COUNT: nat := 40
  const YIELD_COUNT: nat := 100

  /** Which of a pop's attempts is under way: one of the bounded spin/yield attempts, an
      attempt made while holding the wait mutex, or a final one-shot attempt. */
  datatype Attempt = Spin(i: nat) | Locked | Last

  datatype Wpc<+T> =
    | Outside
    | PushCheck(item: T)
    | PushRing
    | PushLock(ticket: nat)
    | PushUnlock(ticket: nat)
    | PushNotify(ticket: nat)
    | PopRing(attempt: Attempt, timed: bool)
    | PopCheck(attempt: Attempt, timed: bool)
    | PopLock(timed: bool)
    | PopPark(timed: bool)
    | Parked(notified: bool, timed: bool)
    | StopStore
    | StopLock
    | StopUnlock
    | StopNotify
    | ClearRing
    | RearmStore

  /** `stopper` is history: the thread whose shutdown raised the flag last. */
  datatype QState<+T> = QState(
    ring: State<T>,
    mutex: Option<Tid>,
    shutdown: bool,
    wpcs: map<Tid, Wpc<T>>,
    consumer: Tid,
    stopper: Tid)

  function WpcOf<T>(q: QState<T>, t: Tid): Wpc<T> {
    if t in q.wpcs then q.wpcs[t] else Outside
  }

  function Goto<T>(q: QState<T>, t: Tid, w: Wpc<T>): QState<T> {
    q.(wpcs := q.wpcs[t := w])
  }

  /** Start a call on the ring; its thread is between ring calls. */
  function StartRing<T>(q: QState<T>, t: Tid, r: Request<T>): QState<T>
    requires Wf(q.ring)
  {
    q.(ring := Next(q.ring, Call(t, r)))
  }

  function RingStep<T>(q: QState<T>, t: Tid, spurious: bool): QState<T>
    requires Wf(q.ring)
  {
    q.(ring := Next(q.ring, Move(t, spurious)))
  }

  /** `notify_one` and `notify_all` coincide: there is at most one sleeper. */
  function Notify<T>(q: QState<T>): QState<T> {
    match WpcOf(q, q.consumer)
    case Parked(_, timed) => Goto(q, q.consumer, Parked(true, timed))
    case _ => q
  }

  function Unlock<T>(q: QState<T>, attempt: Attempt): QState<T> {
    if attempt.Locked? then q.(mutex := None) else q
  }

  // ------------------------------------------------------------------------ pop

  /** What a pop does with the answer of its attempt on the ring. */
  function PopAnswered<T>(q: QState<T>, t: Tid, attempt: Attempt, timed: bool, a: Answer<T>): QState<T> {
    match a
    case PopOk(_, _) => Goto(Unlock(q, attempt), t, Outside)
    case _ => Goto(q, t, if attempt.Last? then Outside else PopCheck(attempt, timed))
  }

  function PopChecked<T>(q: QState<T>, t: Tid, attempt: Attempt, timed: bool): QState<T>
    requires Wf(q.ring)
  {
    if q.shutdown then
      Goto(Unlock(q, attempt), t, Outside)
    else if attempt.Locked? then
      Goto(q, t, PopPark(timed))
    else if attempt.Spin? && attempt.i + 1 < SPIN_COUNT + YIELD_COUNT then
      Goto(StartRing(q, t, Pop), t, PopRing(Spin(attempt.i + 1), timed))
    else
      Goto(q, t, PopLock(timed))
  }

  /** With the mutex in hand: try again, or give up the mutex for one last attempt when a
      timed pop's deadline has passed. */
  function PopLocked<T>(q: QState<T>, t: Tid, timed: bool, expired: bool): QState<T>
    requires Wf(q.ring)
  {
    if q.mutex.Some? then q
    else if timed && expired then Goto(StartRing(q, t, Pop), t, PopRing(Last, timed))
    else Goto(StartRing(q.(mutex := Some(t)), t, Pop), t, PopRing(Locked, timed))
  }

  // ----------------------------------------------------------------------- steps

  /** One step of thread `t`.  `spurious` is a spurious compare-and-swap failure or a spurious
      wake-up; `expired` says whether a timed pop's deadline has passed. */
  function Act<T>(q: QState<T>, t: Tid, spurious: bool, expired: bool): (q': QState<T>)
    requires Wf(q.ring)
    ensures Wf(q'.ring) && q'.consumer == q.consumer
  {
    match WpcOf(q, t)
    case Outside => q
    case PushCheck(item) =>
      if q.shutdown then Goto(q, t, Outside) else Goto(StartRing(q, t, Push(item)), t, PushRing)
    case PushRing =>
      (match PcOf(q.ring, t)
       case Returned(PushOk(ticket)) => Goto(q, t, PushLock(ticket))
       case Returned(_) => Goto(q, t, Outside)
       case _ => RingStep(q, t, spurious))
    case PushLock(p) => if q.mutex.None? then Goto(q.(mutex := Some(t)), t, PushUnlock(p)) else q
    case PushUnlock(p) => Goto(q.(mutex := None), t, PushNotify(p))
    case PushNotify(p) => Goto(Notify(q), t, Outside)
    case PopRing(attempt, timed) =>
      (match PcOf(q.ring, t)
       case Returned(a) => PopAnswered(q, t, attempt, timed, a)
       case _ => RingStep(q, t, spurious))
    case PopCheck(attempt, timed) => PopChecked(q, t, attempt, timed)
    case PopLock(timed) => PopLocked(q, t, timed, expired)
    case PopPark(timed) => Goto(q.(mutex := None), t, Parked(false, timed))
    case Parked(notified, timed) =>
      if notified || spurious || (timed && expired) then Goto(q, t, PopLock(timed)) else q
    case StopStore => Goto(q.(shutdown := true, stopper := t), t, StopLock)
    case StopLock => if q.mutex.None? then Goto(q.(mutex := Some(t)), t, StopUnlock) else q
    case StopUnlock => Goto(q.(mutex := None), t, StopNotify)
    case StopNotify => Goto(Notify(q), t, Outside)
    case ClearRing =>
      (match PcOf(q.ring, t)
       case Returned(PopOk(_, _)) => StartRing(q, t, Pop)
       case Returned(_) => Goto(q, t, RearmStore)
       case _ => RingStep(q, t, spurious))
    case RearmStore => Goto(q.(shutdown := false), t, Outside)
  }

  datatype Operation<+T> = DoPush(item: T) | DoPop(timed: bool) | DoTryPop | DoShutdown | DoRearm

  datatype QAction<+T> = Begin(t: Tid, op: Operation<T>) | Step(t: Tid, spurious: bool, expired: bool)

  /** Only the consumer thread begins the popping operations. */
  function Start<T>(q: QState<T>, t: Tid, op: Operation<T>): (q': QState<T>)
    requires Wf(q.ring)
    ensures Wf(q'.ring) && q'.consumer == q.consumer
  {
    match op
    case DoPush(item) => Goto(q, t, PushCheck(item))
    case DoShutdown => Goto(q, t, StopStore)
    case DoPop(timed) => if t == q.consumer then Goto(StartRing(q, t, Pop), t, PopRing(Spin(0), timed)) else q
    case DoTryPop => if t == q.consumer then Goto(StartRing(q, t, Pop), t, PopRing(Last, false)) else q
    case DoRearm => if t == q.consumer then Goto(StartRing(q, t, Pop), t, ClearRing) else q
  }

  function QNext<T>(q: QState<T>, a: QAction<T>): (q': QState<T>)
    requires Wf(q.ring)
    ensures Wf(q'.ring) && q'.consumer == q.consumer
  {
    match a
    case Begin(t, op) => if WpcOf(q, t).Outside? then Start(q, t, op) else q
    case Step(t, spurious, expired) => Act(q, t, spurious, expired)
  }

  function QRun<T>(q: QState<T>, schedule: seq<QAction<T>>): (q': QState<T>)
    requires Wf(q.ring)
    ensures Wf(q'.ring) && q'.consumer == q.consumer
  {
    if schedule == [] then q
    else QNext(QRun(q, schedule[..|schedule| - 1]), schedule[|schedule| - 1])
  }

  function QInit<T>(capacity: nat, consumer: Tid): (q: QState<T>)
    requires capacity >= 2
    ensures Wf(q.ring) && q.consumer == consumer
  {
    QState(Init(capacity), None, false, map[], consumer, consumer)
  }
}
