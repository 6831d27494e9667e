/** What each call on the blocking queue does for a thread that runs alone: the queue before and
    after the call, as its users see it, whatever state the earlier calls left. */
module QueueLaws {
  import opened Options
  import opened MpmcRing
  import opened MpmcInvariant
  import opened MpmcTheorems
  import opened BlockingQueue
  import opened WakeupProof
  import opened SoloRuns
  import opened QueueSteps

  lemma Ends<T(!new)>(q: QState<T>, t: Tid, op: Operation<T>, expired: bool, k: nat, b: QState<T>, n: nat)
    requires Quiet(q, t) && k <= n
    requires Goes(t, expired, QNext(q, Begin(t, op)), k, b) && Goes(t, expired, b, 1, b)
    ensures After(q, t, op, expired, n) == b && QInv(b)
  {
    StartKeeps(q, t, op);
    Settles(t, expired, QNext(q, Begin(t, op)), k, b, n);
    GoesIsRun(t, expired, QNext(q, Begin(t, op)), n, b);
    RunKeeps(QNext(q, Begin(t, op)), t, expired, n);
  }

  lemma EndsFrom<T(!new)>(q: QState<T>, t: Tid, expired: bool, k: nat, b: QState<T>, n: nat)
    requires QInv(q) && k <= n && Goes(t, expired, q, k, b) && Goes(t, expired, b, 1, b)
    ensures QRun(q, Solo(t, expired, n)) == b && QInv(b)
  {
    Settles(t, expired, q, k, b, n);
    GoesIsRun(t, expired, q, n, b);
    RunKeeps(q, t, expired, n);
  }

  // ------------------------------------------------------------------------------ push

  ghost predicate HasRoom<T>(q: QState<T>)
    requires Counters(q.ring)
  {
    !q.shutdown && |Queue(q.ring)| < q.ring.capacity
  }

  lemma TakenState<T>(q: QState<T>, t: Tid, item: T)
    requires Quiet(q, t)
    ensures var q' := Taken(q, t, item);
            && q'.ring == Pushed(q.ring, t, item) && q'.shutdown == q.shutdown && q'.mutex.None? && WpcOf(q', t).Outside?
            && OthersRest(q'.ring, t) && !Asleep(q')
            && (t != q.consumer && WpcOf(q, q.consumer).Parked? ==>
                  WpcOf(q', q.consumer) == Parked(true, WpcOf(q, q.consumer).timed))
  {
    var q' := Taken(q, t, item);
    forall u: Tid | u != t ensures Resting(PcOf(q'.ring, u)) {
      assert Resting(PcOf(q.ring, u));
    }
  }

  /** A push with room appends its item and leaves nobody asleep. */
  lemma PushAppends<T(!new)>(q: QState<T>, t: Tid, expired: bool, item: T, n: nat)
    requires Quiet(q, t) && HasRoom(q) && n >= 10
    ensures var q' := After(q, t, DoPush(item), expired, n);
            && Quiet(q', t) && Queue(q'.ring) == Queue(q.ring) + [Claim(t, item)]
            && PcOf(q'.ring, t) == Returned(PushOk(q.ring.head))
            && q'.ring.tail == q.ring.tail && !q'.shutdown && !Asleep(q')
            && (t != q.consumer && WpcOf(q, q.consumer).Parked? ==>
                  WpcOf(q', q.consumer) == Parked(true, WpcOf(q, q.consumer).timed))
  {
    PushTaken(q, t, expired, item);
    TakenState(q, t, item);
    StaysOutside(t, expired, Taken(q, t, item));
    Ends(q, t, DoPush(item), expired, 10, Taken(q, t, item), n);
  }

  /** A push on a full or shut queue leaves it as it was. */
  lemma PushRefusedLeaves<T(!new)>(q: QState<T>, t: Tid, expired: bool, item: T, n: nat)
    requires Quiet(q, t) && !HasRoom(q) && n >= 5
    ensures var q' := After(q, t, DoPush(item), expired, n);
            && Quiet(q', t) && Queue(q'.ring) == Queue(q.ring) && q'.shutdown == q.shutdown
            && q'.ring.slots == q.ring.slots
            && (q.shutdown ==> q'.ring == q.ring) && (!q.shutdown ==> PcOf(q'.ring, t) == Returned(PushFull))
  {
    QuietIsCalm(q, t);
    PushEnters(q, t, expired, item);
    var b := if q.shutdown then Goto(q, t, Outside) else With(q, At(q.ring, t, Returned(PushFull)), t, Outside);
    if !q.shutdown {
      PushRefused(q, t, expired, item);
    }
    StaysOutside(t, expired, b);
    Ends(q, t, DoPush(item), expired, if q.shutdown then 1 else 5, b, n);
    OthersStillRest(q, b, t);
  }

  lemma OthersStillRest<T>(q: QState<T>, q': QState<T>, t: Tid)
    requires OthersRest(q.ring, t) && forall u: Tid :: u != t ==> PcOf(q'.ring, u) == PcOf(q.ring, u)
    ensures OthersRest(q'.ring, t)
  {
    forall u: Tid | u != t ensures Resting(PcOf(q'.ring, u)) {
      assert Resting(PcOf(q.ring, u));
    }
  }

  // ------------------------------------------------------------------------------- pop

  /** A pop or try_pop on a queue that holds an item returns the oldest one, shut down or not. */
  lemma PopReturnsOldest<T(!new)>(q: QState<T>, t: Tid, expired: bool, op: Operation<T>, n: nat)
    requires Quiet(q, t) && t == q.consumer && (op.DoPop? || op.DoTryPop?) && Queue(q.ring) != [] && n >= 6
    ensures var q' := After(q, t, op, expired, n);
            && Quiet(q', t) && Queue(q'.ring) == Queue(q.ring)[1..] && q'.shutdown == q.shutdown
            && PcOf(q'.ring, t) == Returned(PopOk(q.ring.tail, Some(Queue(q.ring)[0].item)))
  {
    var attempt, timed := if op.DoPop? then Spin(0) else Last, op.DoPop? && op.timed;
    var b := With(q, Popped(q.ring, t), t, Outside);
    QuietIsCalm(q, t);
    CalmTail(q.ring, t);
    PopEnters(q, t, op);
    PopTakes(q, t, expired, attempt, timed);
    StaysOutside(t, expired, b);
    Ends(q, t, op, expired, 6, b, n);
    OthersStillRest(q, b, t);
  }

  /** An empty queue as a pop that found nothing leaves it, its thread at place w. */
  lemma FoundNothing<T>(q: QState<T>, t: Tid, w: Wpc<T>)
    requires Quiet(q, t)
    ensures var q' := Answered(q, t, PopEmpty, w);
            && Wf(q'.ring) && Counters(q'.ring) && Queue(q'.ring) == Queue(q.ring) && PcOf(q'.ring, t) == Returned(PopEmpty)
            && WpcOf(q', t) == w && OthersRest(q'.ring, t) && q'.consumer == q.consumer
  {
    OthersStillRest(q, Answered(q, t, PopEmpty, w), t);
  }

  /** A pop on an empty shut queue, and a try_pop on any empty queue, return nothing. */
  lemma PopReturnsNothing<T(!new)>(q: QState<T>, t: Tid, expired: bool, op: Operation<T>, n: nat)
    requires Quiet(q, t) && t == q.consumer && (op.DoTryPop? || (op.DoPop? && q.shutdown)) && Queue(q.ring) == [] && n >= 5
    ensures var q' := After(q, t, op, expired, n);
            && Quiet(q', t) && Queue(q'.ring) == [] && q'.shutdown == q.shutdown
            && PcOf(q'.ring, t) == Returned(PopEmpty)
  {
    var attempt, timed := if op.DoPop? then Spin(0) else Last, op.DoPop? && op.timed;
    var b := Answered(q, t, PopEmpty, Outside);
    QuietIsCalm(q, t);
    CalmTail(q.ring, t);
    PopEnters(q, t, op);
    PopMisses(q, t, expired, attempt, timed);
    if op.DoPop? {
      PopChecks(q, t, expired, attempt, timed);
      Then(t, expired, QNext(q, Begin(t, op)), 4, Answered(q, t, PopEmpty, PopCheck(attempt, timed)), 1, b);
    }
    StaysOutside(t, expired, b);
    FoundNothing(q, t, Outside);
    Ends(q, t, op, expired, if op.DoPop? then 5 else 4, b, n);
  }

  /** A pop on an empty, open queue ends asleep without the mutex. */
  lemma PopSleeps<T(!new)>(q: QState<T>, t: Tid, expired: bool, timed: bool, n: nat)
    requires Quiet(q, t) && t == q.consumer && Queue(q.ring) == [] && !q.shutdown
    requires !(timed && expired) && n >= 5 * ATTEMPTS + 7
    ensures var q' := After(q, t, DoPop(timed), expired, n);
            && QInv(q') && Asleep(q') && q'.mutex.None? && Queue(q'.ring) == [] && !q'.shutdown
  {
    var b := Answered(q, t, PopEmpty, Parked(false, timed));
    QuietIsCalm(q, t);
    CalmTail(q.ring, t);
    PopEnters(q, t, DoPop(timed));
    PopTires(q, t, expired, timed);
    LockedMiss(q, t, expired, timed);
    Then(t, expired, Trying(q, t, PopRing(Spin(0), timed)), 5 * ATTEMPTS, Answered(q, t, PopEmpty, PopLock(timed)), 7, b);
    PopParks(q.(ring := At(q.ring, t, Returned(PopEmpty))), t, expired, timed);
    FoundNothing(q, t, Parked(false, timed));
    Ends(q, t, DoPop(timed), expired, 5 * ATTEMPTS + 7, b, n);
  }

  /** The attempt with the mutex in hand, and the sleep after it. */
  lemma LockedMiss<T(!new)>(q: QState<T>, t: Tid, expired: bool, timed: bool)
    requires Wf(q.ring) && q.mutex.None? && SeqAt(q.ring, q.ring.tail) < q.ring.tail + 1 && !q.shutdown && !(timed && expired)
    ensures Goes(t, expired, Answered(q, t, PopEmpty, PopLock(timed)), 7, Answered(q, t, PopEmpty, Parked(false, timed)))
  {
    var m := q.(mutex := Some(t));
    var r := q.(ring := At(q.ring, t, Returned(PopEmpty)));
    var a, b := Answered(q, t, PopEmpty, PopLock(timed)), Trying(m, t, PopRing(Locked, timed));
    var c := Answered(m, t, PopEmpty, PopCheck(Locked, timed));
    var d := Answered(m, t, PopEmpty, PopPark(timed));
    AtTwice(q.ring, t, Returned(PopEmpty), PopLoadPos);
    PopLocks(r, t, expired, timed);
    PopMisses(m, t, expired, Locked, timed);
    PopChecks(m, t, expired, Locked, timed);
    PopParks(r, t, expired, timed);
    Then(t, expired, a, 1, b, 4, c);
    Then(t, expired, a, 5, c, 1, d);
    Then(t, expired, a, 6, d, 1, Answered(q, t, PopEmpty, Parked(false, timed)));
  }

  /** A timed pop whose deadline has passed gives up after one more attempt. */
  lemma PopGivesUp<T(!new)>(q: QState<T>, t: Tid, n: nat)
    requires Quiet(q, t) && t == q.consumer && Queue(q.ring) == [] && !q.shutdown && n >= 5 * ATTEMPTS + 5
    ensures var q' := After(q, t, DoPop(true), true, n);
            && Quiet(q', t) && Queue(q'.ring) == [] && !q'.shutdown && PcOf(q'.ring, t) == Returned(PopEmpty)
  {
    var r := q.(ring := At(q.ring, t, Returned(PopEmpty)));
    var a, b := Trying(q, t, PopRing(Spin(0), true)), Answered(q, t, PopEmpty, PopLock(true));
    var c, d := Trying(q, t, PopRing(Last, true)), Answered(q, t, PopEmpty, Outside);
    QuietIsCalm(q, t);
    CalmTail(q.ring, t);
    PopEnters(q, t, DoPop(true));
    PopTires(q, t, true, true);
    AtTwice(q.ring, t, Returned(PopEmpty), PopLoadPos);
    PopLocks(r, t, true, true);
    PopMisses(q, t, true, Last, true);
    Then(t, true, a, 5 * ATTEMPTS, b, 1, c);
    Then(t, true, a, 5 * ATTEMPTS + 1, c, 4, d);
    StaysOutside(t, true, d);
    FoundNothing(q, t, Outside);
    Ends(q, t, DoPop(true), true, 5 * ATTEMPTS + 5, d, n);
  }

  // -------------------------------------------------------------------- shutdown and re-arm

  /** A shutdown leaves the queue shut, its items in place and nobody asleep. */
  lemma ShutdownShuts<T(!new)>(q: QState<T>, t: Tid, expired: bool, n: nat)
    requires Quiet(q, t) && n >= 4
    ensures var q' := After(q, t, DoShutdown, expired, n);
            && Quiet(q', t) && q'.shutdown && q'.ring == q.ring && !Asleep(q')
            && (t != q.consumer && WpcOf(q, q.consumer).Parked? ==>
                  WpcOf(q', q.consumer) == Parked(true, WpcOf(q, q.consumer).timed))
  {
    Stops(q, t, expired);
    StaysOutside(t, expired, Stopped(q, t));
    Ends(q, t, DoShutdown, expired, 4, Stopped(q, t), n);
  }

  /** A re-arm by the consumer leaves the queue empty and open. */
  lemma RearmEmptiesAndOpens<T(!new)>(q: QState<T>, t: Tid, expired: bool, n: nat)
    requires Quiet(q, t) && t == q.consumer && n >= 6 * |Queue(q.ring)| + 5
    ensures var q' := After(q, t, DoRearm, expired, n); Quiet(q', t) && Queue(q'.ring) == [] && !q'.shutdown
  {
    QuietIsCalm(q, t);
    PopEnters(q, t, DoRearm);
    var ring := Clears(q, t, expired, |Queue(q.ring)|);
    var b := With(q.(shutdown := false), ring, t, Outside);
    StaysOutside(t, expired, b);
    Ends(q, t, DoRearm, expired, 6 * |Queue(q.ring)| + 5, b, n);
  }

  // ------------------------------------------------------------------- waking the sleeper

  /** A sleeper that was notified, or whose deadline has passed, and nobody else inside a call. */
  ghost predicate Roused<T>(q: QState<T>, expired: bool, timed: bool) {
    var w := WpcOf(q, q.consumer);
    && QInv(q) && q.mutex.None? && OthersRest(q.ring, q.consumer)
    && w.Parked? && w.timed == timed && (w.notified || (timed && expired))
  }

  lemma RousedIsCalm<T>(q: QState<T>, expired: bool, timed: bool)
    requires Roused(q, expired, timed)
    ensures Calm(q.ring, q.consumer) && Resting(PcOf(q.ring, q.consumer))
    ensures Goto(q, q.consumer, Parked(WpcOf(q, q.consumer).notified, timed)) == q
  {
    assert Agrees(q, q.consumer);
    assert q.wpcs[q.consumer := WpcOf(q, q.consumer)] == q.wpcs;
  }

  /** The sleeper gets up and starts an attempt: its last one if its deadline has passed, else
      one with the mutex in hand. */
  lemma GetsUp<T(!new)>(q: QState<T>, expired: bool, timed: bool)
    requires Roused(q, expired, timed)
    ensures Goes(q.consumer, expired, q, 2,
                 if timed && expired then Trying(q, q.consumer, PopRing(Last, timed))
                 else Trying(q.(mutex := Some(q.consumer)), q.consumer, PopRing(Locked, timed)))
  {
    var c := q.consumer;
    RousedIsCalm(q, expired, timed);
    PopWakes(q, c, expired, WpcOf(q, c).notified, timed);
    PopLocks(q, c, expired, timed);
    Then(c, expired, q, 1, Goto(q, c, PopLock(timed)), 1,
         if timed && expired then Trying(q, c, PopRing(Last, timed))
         else Trying(q.(mutex := Some(c)), c, PopRing(Locked, timed)));
  }

  /** A spurious wake-up is taken like a notification. */
  lemma SpuriousWakeIsNotification<T>(q: QState<T>, expired: bool)
    requires Wf(q.ring) && WpcOf(q, q.consumer).Parked?
    ensures QNext(q, Step(q.consumer, true, expired)) ==
            QNext(Goto(q, q.consumer, Parked(true, WpcOf(q, q.consumer).timed)), Step(q.consumer, false, expired))
  {
    GotoTwice(q, q.consumer, Parked(true, WpcOf(q, q.consumer).timed), PopLock(WpcOf(q, q.consumer).timed));
  }

  lemma TakesAfterWaking<T(!new)>(q: QState<T>, expired: bool, timed: bool)
    requires Roused(q, expired, timed) && q.ring.tail < q.ring.head
    ensures Goes(q.consumer, expired, q, 8, With(q, Popped(q.ring, q.consumer), q.consumer, Outside))
  {
    var c := q.consumer;
    var attempt := if timed && expired then Last else Locked;
    var m := if timed && expired then q else q.(mutex := Some(c));
    RousedIsCalm(q, expired, timed);
    CalmTail(q.ring, c);
    GetsUp(q, expired, timed);
    PopTakes(m, c, expired, attempt, timed);
    Then(c, expired, q, 2, Trying(m, c, PopRing(attempt, timed)), 6, With(q, Popped(q.ring, c), c, Outside));
  }

  /** A sleeper woken on a queue that holds an item returns the oldest one. */
  lemma SleeperTakes<T(!new)>(q: QState<T>, expired: bool, timed: bool, n: nat)
    requires Roused(q, expired, timed) && Queue(q.ring) != [] && n >= 8
    ensures var q' := QRun(q, Solo(q.consumer, expired, n));
            && Quiet(q', q.consumer) && Queue(q'.ring) == Queue(q.ring)[1..]
            && PcOf(q'.ring, q.consumer) == Returned(PopOk(q.ring.tail, Some(Queue(q.ring)[0].item)))
  {
    var c := q.consumer;
    var b := With(q, Popped(q.ring, c), c, Outside);
    RousedIsCalm(q, expired, timed);
    CalmTail(q.ring, c);
    TakesAfterWaking(q, expired, timed);
    StaysOutside(c, expired, b);
    EndsFrom(q, c, expired, 8, b, n);
    OthersStillRest(q, b, c);
  }

  lemma StopsAfterWaking<T(!new)>(q: QState<T>, expired: bool, timed: bool)
    requires Roused(q, expired, timed) && q.ring.tail == q.ring.head && (q.shutdown || (timed && expired))
    ensures Goes(q.consumer, expired, q, if timed && expired then 6 else 7, Answered(q, q.consumer, PopEmpty, Outside))
  {
    var c := q.consumer;
    var attempt := if timed && expired then Last else Locked;
    var m := if timed && expired then q else q.(mutex := Some(c));
    var checked := Answered(m, c, PopEmpty, if attempt.Last? then Outside else PopCheck(attempt, timed));
    RousedIsCalm(q, expired, timed);
    CalmTail(q.ring, c);
    GetsUp(q, expired, timed);
    PopMisses(m, c, expired, attempt, timed);
    Then(c, expired, q, 2, Trying(m, c, PopRing(attempt, timed)), 4, checked);
    if attempt.Locked? {
      PopChecks(m, c, expired, attempt, timed);
      Then(c, expired, q, 6, checked, 1, Answered(q, c, PopEmpty, Outside));
    }
  }

  /** A sleeper woken on an empty queue returns nothing if the queue is shut down or its deadline
      has passed. */
  lemma SleeperStops<T(!new)>(q: QState<T>, expired: bool, timed: bool, n: nat)
    requires Roused(q, expired, timed) && Queue(q.ring) == [] && (q.shutdown || (timed && expired)) && n >= 7
    ensures var q' := QRun(q, Solo(q.consumer, expired, n));
            Quiet(q', q.consumer) && Queue(q'.ring) == [] && PcOf(q'.ring, q.consumer) == Returned(PopEmpty)
  {
    var c := q.consumer;
    var b := Answered(q, c, PopEmpty, Outside);
    StopsAfterWaking(q, expired, timed);
    StaysOutside(c, expired, b);
    EndsFrom(q, c, expired, if timed && expired then 6 else 7, b, n);
    OthersStillRest(q, b, c);
  }

  lemma RousedByOther<T>(q: QState<T>, t: Tid, expired: bool, timed: bool)
    requires Quiet(q, t) && t != q.consumer && WpcOf(q, q.consumer) == Parked(true, timed)
    ensures Roused(q, expired, timed)
  {
    QuietIsCalm(q, t);
    forall u: Tid | u != q.consumer ensures Resting(PcOf(q.ring, u)) {
      assert u != t ==> Resting(PcOf(q.ring, u));
    }
  }

  /** One push wakes the sleeper, which returns the oldest item: the pushed one if the queue was
      empty. */
  lemma PushReachesSleeper<T(!new)>(q: QState<T>, t: Tid, item: T, timed: bool, late: bool, expired: bool, n: nat, m: nat)
    requires Quiet(q, t) && HasRoom(q) && t != q.consumer && WpcOf(q, q.consumer) == Parked(false, timed) && n >= 10 && m >= 8
    ensures var q' := QRun(After(q, t, DoPush(item), late, n), Solo(q.consumer, expired, m));
            && Quiet(q', q.consumer) && Queue(q'.ring) == (Queue(q.ring) + [Claim(t, item)])[1..]
            && PcOf(q'.ring, q.consumer) == Returned(PopOk(q.ring.tail, Some((Queue(q.ring) + [Claim(t, item)])[0].item)))
  {
    PushAppends(q, t, late, item, n);
    var pushed := After(q, t, DoPush(item), late, n);
    RousedByOther(pushed, t, expired, timed);
    SleeperTakes(pushed, expired, timed, m);
  }

  /** A shutdown wakes a sleeper on an empty queue, which returns nothing. */
  lemma ShutdownReachesSleeper<T(!new)>(q: QState<T>, t: Tid, timed: bool, late: bool, expired: bool, n: nat, m: nat)
    requires Quiet(q, t) && Queue(q.ring) == [] && t != q.consumer && WpcOf(q, q.consumer) == Parked(false, timed) && n >= 4 && m >= 7
    ensures var q' := QRun(After(q, t, DoShutdown, late, n), Solo(q.consumer, expired, m));
            Quiet(q', q.consumer) && Queue(q'.ring) == [] && PcOf(q'.ring, q.consumer) == Returned(PopEmpty)
  {
    ShutdownShuts(q, t, late, n);
    var shut := After(q, t, DoShutdown, late, n);
    RousedByOther(shut, t, expired, timed);
    SleeperStops(shut, expired, timed, m);
  }
}
