/** No wake-up is lost: the argument written beside the blocking pop, as an invariant. */
module WakeupProof {
  import opened Options
  import opened MpmcRing
  import opened MpmcInvariant
  import opened BlockingQueue

  // --------------------------------------------------------------- the invariant

  ghost predicate InPush<T>(pc: Pc<T>) {
    || pc.PushLoadPos? || pc.PushLoadSeq? || pc.PushDecide? || pc.PushWrite? || pc.PushPublish?
    || (pc.Returned? && (pc.answer.PushOk? || pc.answer.PushFull?))
  }

  ghost predicate InPop<T>(pc: Pc<T>) {
    || pc.PopLoadPos? || pc.PopLoadSeq? || pc.PopDecide? || pc.PopRead? || pc.PopRecycle?
    || (pc.Returned? && (pc.answer.PopOk? || pc.answer.PopEmpty?))
  }

  ghost predicate PopWork<T>(w: Wpc<T>) {
    w.PopRing? || w.PopCheck? || w.PopLock? || w.PopPark? || w.Parked? || w.ClearRing? || w.RearmStore?
  }

  ghost predicate HoldsMutex<T>(w: Wpc<T>) {
    || w.PushUnlock? || w.StopUnlock? || w.PopPark?
    || (w.PopRing? && w.attempt.Locked?) || (w.PopCheck? && w.attempt.Locked?)
  }

  ghost predicate BehindTail<T>(s: State<T>, pc: Pc<T>) {
    (pc.PopLoadSeq? || pc.PopDecide?) ==> pc.pos == s.tail
  }

  /** Each thread's place in the wrapper agrees with its place in the ring, with the mutex and
      with the rule that only the consumer pops. */
  ghost predicate Agrees<T>(q: QState<T>, t: Tid) {
    var w, pc := WpcOf(q, t), PcOf(q.ring, t);
    && (if w.PushRing? then InPush(pc) else if w.PopRing? || w.ClearRing? then InPop(pc) else pc.Ready? || pc.Returned?)
    && (PopWork(w) ==> t == q.consumer)
    && (HoldsMutex(w) <==> q.mutex == Some(t))
    && BehindTail(q.ring, pc)
  }

  ghost predicate TailReady<T>(s: State<T>)
    requires Wf(s)
  {
    s.tail < s.head && SeqAt(s, s.tail) == s.tail + 1
  }

  /** The producer of ticket `p` has published but not reached the mutex. */
  ghost predicate BeforeLock<T>(q: QState<T>, t: Tid, p: nat) {
    || (WpcOf(q, t) == PushRing && PcOf(q.ring, t) == Returned(PushOk(p)))
    || WpcOf(q, t) == PushLock(p)
  }

  /** The producer of ticket `p` has published but not notified. */
  ghost predicate YetToNotify<T>(q: QState<T>, t: Tid, p: nat) {
    BeforeLock(q, t, p) || WpcOf(q, t) == PushUnlock(p) || WpcOf(q, t) == PushNotify(p)
  }

  /** The consumer holds the mutex and has made up its mind that the ring is empty. */
  ghost predicate DecidedEmpty<T>(q: QState<T>) {
    var w, pc := WpcOf(q, q.consumer), PcOf(q.ring, q.consumer);
    || w.PopPark?
    || (w.PopCheck? && w.attempt.Locked?)
    || (w.PopRing? && w.attempt.Locked?
        && ((pc.PopDecide? && pc.seen < pc.pos + 1) || pc == Returned(PopEmpty)))
  }

  ghost predicate Asleep<T>(q: QState<T>) {
    WpcOf(q, q.consumer).Parked? && !WpcOf(q, q.consumer).notified
  }

  ghost predicate ItemWakes<T>(q: QState<T>)
    requires Wf(q.ring) && Counters(q.ring)
  {
    TailReady(q.ring) ==>
      && (DecidedEmpty(q) ==> BeforeLock(q, q.ring.pushed[q.ring.tail].owner, q.ring.tail))
      && (Asleep(q) ==> YetToNotify(q, q.ring.pushed[q.ring.tail].owner, q.ring.tail))
  }

  ghost predicate StopWakes<T>(q: QState<T>) {
    q.shutdown ==>
      var w := WpcOf(q, q.stopper);
      && (WpcOf(q, q.consumer).PopPark? ==> w.StopLock?)
      && (Asleep(q) ==> w.StopLock? || w.StopUnlock? || w.StopNotify?)
  }

  ghost predicate QInv<T>(q: QState<T>) {
    && Inv(q.ring)
    && (forall t: Tid :: Agrees(q, t))
    && ItemWakes(q)
    && StopWakes(q)
  }

  // ------------------------------------------------------------ what ring steps do

  lemma RingMoveFrame<T>(s: State<T>, t: Tid, spurious: bool, u: Tid)
    requires Wf(s) && u != t
    ensures PcOf(Next(s, Move(t, spurious)), u) == PcOf(s, u)
  {
  }

  /** A push step leaves the tail alone; only the owner of the tail ticket can publish it, and
      it is then just past its ring call. */
  lemma PushMoveEffect<T>(s: State<T>, t: Tid, spurious: bool)
    requires Inv(s) && InPush(PcOf(s, t)) && !PcOf(s, t).Returned?
    ensures var s' := Next(s, Move(t, spurious));
            && InPush(PcOf(s', t)) && s'.tail == s.tail && s.pushed <= s'.pushed
            && (TailReady(s) ==> TailReady(s'))
            && (TailReady(s') && !TailReady(s) ==>
                  s.tail < |s'.pushed| && s'.pushed[s.tail].owner == t && PcOf(s', t) == Returned(PushOk(s.tail)))
  {
    assert ThreadOk(s, t);
    var s' := Next(s, Move(t, spurious));
    var pc := PcOf(s, t);
    if pc.PushPublish? || pc.PushWrite? {
      var slot := if pc.PushPublish? then Slot(pc.pos + 1, DataAt(s, pc.pos)) else Slot(SeqAt(s, pc.pos), Some(pc.item));
      OtherTicketsUntouched(s, s.tail, pc.pos, slot);
      SameSlots(Store(s, pc.pos, slot), s');
    } else {
      SameSlots(s, s');
      if s.head == s.tail {
        assert Vacant(s, s.tail);
      }
    }
  }

  /** A pop step by the only popper: it keeps reading at the tail, and a decision that the
      ring is empty is made only while the tail ticket is unpublished. */
  lemma PopMoveEffect<T>(s: State<T>, t: Tid, spurious: bool)
    requires Inv(s) && InPop(PcOf(s, t)) && !PcOf(s, t).Returned? && BehindTail(s, PcOf(s, t))
    ensures var s' := Next(s, Move(t, spurious));
            && InPop(PcOf(s', t)) && BehindTail(s', PcOf(s', t))
            && s'.head == s.head && s'.pushed == s.pushed
            && (PcOf(s', t).PopDecide? && PcOf(s', t).seen < PcOf(s', t).pos + 1 ==> s'.tail == s.tail && !TailReady(s'))
            && (PcOf(s', t) == Returned(PopEmpty) ==>
                  PcOf(s, t).PopDecide? && PcOf(s, t).seen < PcOf(s, t).pos + 1 && s'.tail == s.tail && s'.slots == s.slots)
  {
    assert ThreadOk(s, t);
  }

  lemma CallFrame<T>(s: State<T>, t: Tid, r: Request<T>)
    requires Inv(s) && (PcOf(s, t).Ready? || PcOf(s, t).Returned?)
    ensures var s' := Next(s, Call(t, r));
            && Inv(s') && s' == s.(threads := s.threads[t := Entry(r)])
  {
    NextKeepsInv(s, Call(t, r));
  }

  // ---------------------------------------------------------- steps that stay outside the ring

  /** A thread other than the consumer's sleeper that changes only its own place, the mutex and
      nothing in the ring keeps every thread's agreement. */
  lemma AgreesAfter<T>(q: QState<T>, q': QState<T>, t: Tid)
    requires forall u: Tid :: Agrees(q, u)
    requires q'.ring == q.ring && q'.consumer == q.consumer
    requires forall u: Tid :: u != t ==> WpcOf(q', u) == WpcOf(q, u)
    requires Agrees(q', t)
    requires q'.mutex == q.mutex || (q.mutex == Some(t) && q'.mutex == None) || (q.mutex == None && q'.mutex == Some(t))
    ensures forall u: Tid :: Agrees(q', u)
  {
    forall u: Tid ensures Agrees(q', u) {
      assert Agrees(q, u) && Agrees(q, t);
    }
  }

  lemma PushTailKeeps<T>(q: QState<T>, t: Tid, spurious: bool, expired: bool)
    requires QInv(q) && (WpcOf(q, t).PushLock? || WpcOf(q, t).PushUnlock?)
    ensures QInv(Act(q, t, spurious, expired))
  {
    assert Agrees(q, t) && Agrees(q, q.consumer);
    AgreesAfter(q, Act(q, t, spurious, expired), t);
  }

  lemma StopKeeps<T>(q: QState<T>, t: Tid, spurious: bool, expired: bool)
    requires QInv(q) && (WpcOf(q, t).StopStore? || WpcOf(q, t).StopLock? || WpcOf(q, t).StopUnlock?)
    ensures QInv(Act(q, t, spurious, expired))
  {
    assert Agrees(q, t) && Agrees(q, q.consumer);
    AgreesAfter(q, Act(q, t, spurious, expired), t);
  }

  /** A notification leaves nobody asleep. */
  lemma NotifyWakes<T>(q: QState<T>)
    requires QInv(q)
    ensures QInv(Notify(q)) && !Asleep(Notify(q)) && !DecidedEmpty(Notify(q)) == !DecidedEmpty(q)
    ensures forall u: Tid :: WpcOf(q, u).Parked? || WpcOf(Notify(q), u) == WpcOf(q, u)
  {
    assert Agrees(q, q.consumer);
    AgreesAfter(q, Notify(q), q.consumer);
  }

  lemma NotifyKeeps<T>(q: QState<T>, t: Tid, spurious: bool, expired: bool)
    requires QInv(q) && (WpcOf(q, t).PushNotify? || WpcOf(q, t).StopNotify?)
    ensures QInv(Act(q, t, spurious, expired))
  {
    NotifyWakes(q);
    var q1 := Notify(q);
    assert Agrees(q1, t) && Agrees(q1, q.consumer);
    AgreesAfter(q1, Goto(q1, t, Outside), t);
  }

  lemma PushCheckKeeps<T>(q: QState<T>, t: Tid, spurious: bool, expired: bool)
    requires QInv(q) && WpcOf(q, t).PushCheck?
    ensures QInv(Act(q, t, spurious, expired))
  {
    assert Agrees(q, t) && Agrees(q, q.consumer);
    if q.shutdown {
      AgreesAfter(q, Act(q, t, spurious, expired), t);
    } else {
      StartRingKeeps(q, t, Push(WpcOf(q, t).item), PushRing);
    }
  }

  ghost predicate CanStart<T>(q: QState<T>, t: Tid, r: Request<T>, w: Wpc<T>) {
    && (PcOf(q.ring, t).Ready? || PcOf(q.ring, t).Returned?)
    && (r.Push? ==> w.PushRing?)
    && (r.Pop? ==> (w.PopRing? || w.ClearRing?) && t == q.consumer)
    && !r.SizeApprox?
    && (HoldsMutex(w) <==> q.mutex == Some(t))
  }

  lemma StartRingAgrees<T>(q: QState<T>, t: Tid, r: Request<T>, w: Wpc<T>)
    requires Inv(q.ring) && (forall u: Tid :: Agrees(q, u)) && CanStart(q, t, r, w)
    ensures var q' := Goto(StartRing(q, t, r), t, w); Inv(q'.ring) && forall u: Tid :: Agrees(q', u)
  {
    var q' := Goto(StartRing(q, t, r), t, w);
    CallFrame(q.ring, t, r);
    forall u: Tid ensures Agrees(q', u) {
      assert Agrees(q, u);
    }
  }

  /** Starting a ring call and moving to the wrapper place that waits for it. */
  lemma StartRingKeeps<T>(q: QState<T>, t: Tid, r: Request<T>, w: Wpc<T>)
    requires QInv(q) && CanStart(q, t, r, w)
    requires forall p: nat :: !YetToNotify(q, t, p)
    requires !WpcOf(q, t).StopLock? && !WpcOf(q, t).StopUnlock? && !WpcOf(q, t).StopNotify?
    ensures QInv(Goto(StartRing(q, t, r), t, w))
  {
    var q' := Goto(StartRing(q, t, r), t, w);
    StartRingAgrees(q, t, r, w);
    CallFrame(q.ring, t, r);
    SameSlots(q.ring, q'.ring);
    assert !YetToNotify(q, t, q.ring.tail);
    assert DecidedEmpty(q') ==> DecidedEmpty(q) && t != q.consumer;
  }

  // ------------------------------------------------------------------ steps inside the ring

  lemma RingStepAgrees<T>(q: QState<T>, t: Tid, spurious: bool)
    requires Inv(q.ring) && (forall u: Tid :: Agrees(q, u))
    requires !PcOf(q.ring, t).Returned?
    requires WpcOf(q, t).PushRing? || WpcOf(q, t).PopRing? || WpcOf(q, t).ClearRing?
    ensures var q' := RingStep(q, t, spurious); Inv(q'.ring) && forall u: Tid :: Agrees(q', u)
  {
    var q' := RingStep(q, t, spurious);
    assert Agrees(q, t);
    NextKeepsInv(q.ring, Move(t, spurious));
    if WpcOf(q, t).PushRing? {
      PushMoveEffect(q.ring, t, spurious);
    } else {
      PopMoveEffect(q.ring, t, spurious);
    }
    forall u: Tid ensures Agrees(q', u) {
      assert Agrees(q, u);
      if u != t { RingMoveFrame(q.ring, t, spurious, u); }
    }
  }

  lemma PushRingStepKeeps<T>(q: QState<T>, t: Tid, spurious: bool)
    requires QInv(q) && WpcOf(q, t).PushRing? && !PcOf(q.ring, t).Returned?
    ensures QInv(RingStep(q, t, spurious))
  {
    var q' := RingStep(q, t, spurious);
    RingStepAgrees(q, t, spurious);
    assert Agrees(q, t) && Agrees(q, q.consumer);
    PushMoveEffect(q.ring, t, spurious);
    if t != q.consumer {
      RingMoveFrame(q.ring, t, spurious, q.consumer);
    }
    assert DecidedEmpty(q') ==> DecidedEmpty(q);
    if TailReady(q.ring) && (DecidedEmpty(q) || Asleep(q)) {
      var o := q.ring.pushed[q.ring.tail].owner;
      assert o != t;
      RingMoveFrame(q.ring, t, spurious, o);
    }
  }

  lemma PopRingStepKeeps<T>(q: QState<T>, t: Tid, spurious: bool)
    requires QInv(q) && (WpcOf(q, t).PopRing? || WpcOf(q, t).ClearRing?) && !PcOf(q.ring, t).Returned?
    ensures QInv(RingStep(q, t, spurious))
  {
    var q' := RingStep(q, t, spurious);
    RingStepAgrees(q, t, spurious);
    assert Agrees(q, t);
    PopMoveEffect(q.ring, t, spurious);
    if DecidedEmpty(q') && TailReady(q'.ring) {
      assert PcOf(q'.ring, t) == Returned(PopEmpty);
      SameSlots(q.ring, q'.ring);
      var o := q.ring.pushed[q.ring.tail].owner;
      assert BeforeLock(q, o, q.ring.tail);
      RingMoveFrame(q.ring, t, spurious, o);
    }
  }

  lemma PushRingKeeps<T>(q: QState<T>, t: Tid, spurious: bool, expired: bool)
    requires QInv(q) && WpcOf(q, t).PushRing?
    ensures QInv(Act(q, t, spurious, expired))
  {
    assert Agrees(q, t) && Agrees(q, q.consumer);
    if PcOf(q.ring, t).Returned? {
      AgreesAfter(q, Act(q, t, spurious, expired), t);
    } else {
      PushRingStepKeeps(q, t, spurious);
    }
  }

  lemma PopRingKeeps<T>(q: QState<T>, t: Tid, spurious: bool, expired: bool)
    requires QInv(q) && WpcOf(q, t).PopRing?
    ensures QInv(Act(q, t, spurious, expired))
  {
    assert Agrees(q, t);
    if PcOf(q.ring, t).Returned? {
      PopAnsweredKeeps(q, t);
    } else {
      PopRingStepKeeps(q, t, spurious);
    }
  }

  lemma PopAnsweredKeeps<T>(q: QState<T>, t: Tid)
    requires QInv(q) && WpcOf(q, t).PopRing? && PcOf(q.ring, t).Returned?
    ensures QInv(PopAnswered(q, t, WpcOf(q, t).attempt, WpcOf(q, t).timed, PcOf(q.ring, t).answer))
  {
    assert Agrees(q, t);
    AgreesAfter(q, PopAnswered(q, t, WpcOf(q, t).attempt, WpcOf(q, t).timed, PcOf(q.ring, t).answer), t);
  }

  lemma RearmKeeps<T>(q: QState<T>, t: Tid, spurious: bool, expired: bool)
    requires QInv(q) && WpcOf(q, t).RearmStore?
    ensures QInv(Act(q, t, spurious, expired))
  {
    assert Agrees(q, t);
    AgreesAfter(q, Act(q, t, spurious, expired), t);
  }

  lemma ClearKeeps<T>(q: QState<T>, t: Tid, spurious: bool, expired: bool)
    requires QInv(q) && WpcOf(q, t).ClearRing?
    ensures QInv(Act(q, t, spurious, expired))
  {
    assert Agrees(q, t);
    if !PcOf(q.ring, t).Returned? {
      PopRingStepKeeps(q, t, spurious);
    } else if PcOf(q.ring, t).answer.PopOk? {
      StartRingKeeps(q, t, Pop, ClearRing);
      assert q.wpcs[t := ClearRing] == q.wpcs;
    } else {
      AgreesAfter(q, Act(q, t, spurious, expired), t);
    }
  }

  // ------------------------------------------------------------------- the rest of a pop

  lemma PopCheckKeeps<T>(q: QState<T>, t: Tid, spurious: bool, expired: bool)
    requires QInv(q) && WpcOf(q, t).PopCheck?
    ensures QInv(Act(q, t, spurious, expired))
  {
    assert Agrees(q, t);
    var w := WpcOf(q, t);
    if !q.shutdown && w.attempt.Spin? && w.attempt.i + 1 < SPIN_COUNT + YIELD_COUNT {
      StartRingKeeps(q, t, Pop, PopRing(Spin(w.attempt.i + 1), w.timed));
    } else {
      AgreesAfter(q, Act(q, t, spurious, expired), t);
    }
  }

  lemma PopLockKeeps<T>(q: QState<T>, t: Tid, spurious: bool, expired: bool)
    requires QInv(q) && WpcOf(q, t).PopLock?
    ensures QInv(Act(q, t, spurious, expired))
  {
    assert Agrees(q, t);
    var timed := WpcOf(q, t).timed;
    if q.mutex.None? {
      if timed && expired {
        StartRingKeeps(q, t, Pop, PopRing(Last, timed));
      } else {
        LockForPop(q, t, timed);
      }
    }
  }

  /** Taking the mutex and starting the attempt it protects, as one step. */
  lemma LockForPop<T>(q: QState<T>, t: Tid, timed: bool)
    requires QInv(q) && WpcOf(q, t) == PopLock(timed) && q.mutex.None?
    ensures QInv(Goto(StartRing(q.(mutex := Some(t)), t, Pop), t, PopRing(Locked, timed)))
  {
    var q' := Goto(StartRing(q.(mutex := Some(t)), t, Pop), t, PopRing(Locked, timed));
    assert Agrees(q, t);
    CallFrame(q.ring, t, Pop);
    SameSlots(q.ring, q'.ring);
    forall u: Tid ensures Agrees(q', u) {
      assert Agrees(q, u);
    }
  }

  lemma ParkKeeps<T>(q: QState<T>, t: Tid, spurious: bool, expired: bool)
    requires QInv(q) && (WpcOf(q, t).PopPark? || WpcOf(q, t).Parked?)
    ensures QInv(Act(q, t, spurious, expired))
  {
    assert Agrees(q, t);
    AgreesAfter(q, Act(q, t, spurious, expired), t);
  }

  // ------------------------------------------------------------------------- every step

  lemma ActKeeps<T>(q: QState<T>, t: Tid, spurious: bool, expired: bool)
    requires QInv(q)
    ensures QInv(Act(q, t, spurious, expired))
  {
    match WpcOf(q, t)
    case Outside =>
    case PushCheck(_) => PushCheckKeeps(q, t, spurious, expired);
    case PushRing => PushRingKeeps(q, t, spurious, expired);
    case PushLock(_) => PushTailKeeps(q, t, spurious, expired);
    case PushUnlock(_) => PushTailKeeps(q, t, spurious, expired);
    case PushNotify(_) => NotifyKeeps(q, t, spurious, expired);
    case PopRing(_, _) => PopRingKeeps(q, t, spurious, expired);
    case PopCheck(_, _) => PopCheckKeeps(q, t, spurious, expired);
    case PopLock(_) => PopLockKeeps(q, t, spurious, expired);
    case PopPark(_) => ParkKeeps(q, t, spurious, expired);
    case Parked(_, _) => ParkKeeps(q, t, spurious, expired);
    case StopStore => StopKeeps(q, t, spurious, expired);
    case StopLock => StopKeeps(q, t, spurious, expired);
    case StopUnlock => StopKeeps(q, t, spurious, expired);
    case StopNotify => NotifyKeeps(q, t, spurious, expired);
    case ClearRing => ClearKeeps(q, t, spurious, expired);
    case RearmStore => RearmKeeps(q, t, spurious, expired);
  }

  lemma StartKeeps<T>(q: QState<T>, t: Tid, op: Operation<T>)
    requires QInv(q) && WpcOf(q, t).Outside?
    ensures QInv(Start(q, t, op))
  {
    assert Agrees(q, t) && Agrees(q, q.consumer);
    match op
    case DoPush(item) => AgreesAfter(q, Start(q, t, op), t);
    case DoShutdown => AgreesAfter(q, Start(q, t, op), t);
    case DoPop(timed) => if t == q.consumer { StartRingKeeps(q, t, Pop, PopRing(Spin(0), timed)); }
    case DoTryPop => if t == q.consumer { StartRingKeeps(q, t, Pop, PopRing(Last, false)); }
    case DoRearm => if t == q.consumer { StartRingKeeps(q, t, Pop, ClearRing); }
  }

  lemma {:induction false} QRunInv<T>(capacity: nat, consumer: Tid, schedule: seq<QAction<T>>)
    requires capacity >= 2
    ensures QInv(QRun(QInit<T>(capacity, consumer), schedule))
    decreases |schedule|
  {
    if schedule == [] {
      InitInv<T>(capacity);
    } else {
      var q := QRun(QInit<T>(capacity, consumer), schedule[..|schedule| - 1]);
      QRunInv(capacity, consumer, schedule[..|schedule| - 1]);
      match schedule[|schedule| - 1]
      case Begin(t, op) => if WpcOf(q, t).Outside? { StartKeeps(q, t, op); }
      case Step(t, spurious, expired) => ActKeeps(q, t, spurious, expired);
    }
  }

  // -------------------------------------------------------------------------- theorems

  /** With one consumer no wake-up is lost: whenever it sleeps un-notified, the oldest item is
      not yet published or its producer has still to notify, and no shutdown has finished
      notifying. */
  lemma NoLostWakeup<T>(capacity: nat, consumer: Tid, schedule: seq<QAction<T>>)
    requires capacity >= 2
    ensures var q := QRun(QInit<T>(capacity, consumer), schedule);
            && Counters(q.ring)
            && (Asleep(q) && TailReady(q.ring) ==> YetToNotify(q, q.ring.pushed[q.ring.tail].owner, q.ring.tail))
            && (Asleep(q) && q.shutdown ==>
                  WpcOf(q, q.stopper).StopLock? || WpcOf(q, q.stopper).StopUnlock? || WpcOf(q, q.stopper).StopNotify?)
  {
    QRunInv(capacity, consumer, schedule);
  }

  /** A consumer left asleep after every other thread has finished its call sleeps on an empty
      queue that has not been shut down. */
  lemma SleepsOnlyWhenIdle<T>(capacity: nat, consumer: Tid, schedule: seq<QAction<T>>)
    requires capacity >= 2
    ensures var q := QRun(QInit<T>(capacity, consumer), schedule);
            Asleep(q) && (forall t: Tid :: t != consumer ==> WpcOf(q, t).Outside?) ==>
              q.ring.head == q.ring.tail && !q.shutdown
  {
    QRunInv(capacity, consumer, schedule);
    OldestItemHasBusyProducer(QRun(QInit<T>(capacity, consumer), schedule));
  }

  /** An unconsumed oldest item that is not visible yet is still being pushed. */
  lemma OldestItemHasBusyProducer<T>(q: QState<T>)
    requires QInv(q)
    ensures q.ring.tail < q.ring.head && !TailReady(q.ring) ==>
              WpcOf(q, q.ring.pushed[q.ring.tail].owner).PushRing?
  {
    var s := q.ring;
    if s.tail < s.head {
      assert Occupied(s, s.tail);
      assert Agrees(q, s.pushed[s.tail].owner);
    }
  }
}
