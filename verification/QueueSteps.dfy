/** The steps of each call on the blocking queue for a thread that runs alone. */
module QueueSteps {
  import opened Chains
  import opened Options
  import opened MpmcRing
  import opened MpmcInvariant
  import opened BlockingQueue
  import opened WakeupProof
  import opened SoloRuns

  // --------------------------------------------------------------------- steps of one thread

  function Go<T>(t: Tid, expired: bool, q: QState<T>): QState<T> {
    if Wf(q.ring) then Act(q, t, false, expired) else q
  }

  function StepOf<T>(t: Tid, expired: bool): QState<T> -> QState<T> {
    q => Go(t, expired, q)
  }

  /** n steps of thread t lead from a to b. */
  ghost predicate Goes<T(!new)>(t: Tid, expired: bool, a: QState<T>, n: nat, b: QState<T>) {
    Leads(StepOf<T>(t, expired), a, n, b)
  }

  lemma Steps<T(!new)>(t: Tid, expired: bool, a: QState<T>, b: QState<T>)
    requires Wf(a.ring) && Act(a, t, false, expired) == b
    ensures Goes(t, expired, a, 1, b)
  {
    OneStep(StepOf<T>(t, expired), a);
  }

  lemma Then<T(!new)>(t: Tid, expired: bool, a: QState<T>, n: nat, b: QState<T>, m: nat, c: QState<T>)
    requires Goes(t, expired, a, n, b) && Goes(t, expired, b, m, c)
    ensures Goes(t, expired, a, n + m, c)
  {
    Join(StepOf<T>(t, expired), a, n, b, m, c);
  }

  /** A thread that no longer moves stays where it is. */
  lemma {:induction false} Settles<T(!new)>(t: Tid, expired: bool, a: QState<T>, k: nat, b: QState<T>, n: nat)
    requires Goes(t, expired, a, k, b) && Goes(t, expired, b, 1, b) && k <= n
    ensures Goes(t, expired, a, n, b)
    decreases n
  {
    if k < n {
      Settles(t, expired, a, k, b, n - 1);
      Then(t, expired, a, n - 1, b, 1, b);
    }
  }

  lemma StaysOutside<T(!new)>(t: Tid, expired: bool, q: QState<T>)
    requires Wf(q.ring) && WpcOf(q, t).Outside?
    ensures Goes(t, expired, q, 1, q)
  {
    Steps(t, expired, q, q);
  }

  lemma GotoTwice<T>(q: QState<T>, t: Tid, w: Wpc<T>, w': Wpc<T>)
    ensures Goto(Goto(q, t, w), t, w') == Goto(q, t, w') && WpcOf(Goto(q, t, w), t) == w
  {
    assert q.wpcs[t := w][t := w'] == q.wpcs[t := w'];
  }

  // ------------------------------------------------------------------------ steps as schedules

  function Solo<T>(t: Tid, expired: bool, n: nat): seq<QAction<T>> {
    seq(n, _ => Step(t, false, expired))
  }

  /** The queue after thread t has begun `op` and taken n steps while nobody else moves. */
  function After<T>(q: QState<T>, t: Tid, op: Operation<T>, expired: bool, n: nat): QState<T>
    requires Wf(q.ring)
  {
    QRun(QNext(q, Begin(t, op)), Solo(t, expired, n))
  }

  lemma {:induction false} RunFollows<T(!new)>(t: Tid, expired: bool, tr: seq<QState<T>>, k: nat)
    requires IsChain(StepOf<T>(t, expired), tr) && k < |tr| && Wf(tr[0].ring)
    ensures QRun(tr[0], Solo(t, expired, k)) == tr[k]
    decreases k
  {
    if k > 0 {
      RunFollows(t, expired, tr, k - 1);
      assert Solo<T>(t, expired, k)[..k - 1] == Solo(t, expired, k - 1);
      assert Link(StepOf<T>(t, expired), tr, k - 1);
    }
  }

  lemma GoesIsRun<T(!new)>(t: Tid, expired: bool, a: QState<T>, n: nat, b: QState<T>)
    requires Wf(a.ring) && Goes(t, expired, a, n, b)
    ensures QRun(a, Solo(t, expired, n)) == b
  {
    var tr: seq<QState<T>> :| IsChain(StepOf<T>(t, expired), tr) && |tr| == n + 1 && tr[0] == a && tr[n] == b;
    RunFollows(t, expired, tr, n);
  }

  lemma {:induction false} RunKeeps<T>(q: QState<T>, t: Tid, expired: bool, n: nat)
    requires QInv(q)
    ensures QInv(QRun(q, Solo(t, expired, n)))
  {
    if n > 0 {
      RunKeeps(q, t, expired, n - 1);
      assert Solo<T>(t, expired, n)[..n - 1] == Solo(t, expired, n - 1);
      ActKeeps(QRun(q, Solo(t, expired, n - 1)), t, false, expired);
    }
  }

  // ----------------------------------------------------------- a ring call inside a queue call

  /** The queue q with thread t at place w and the ring as given. */
  function With<T>(q: QState<T>, ring: State<T>, t: Tid, w: Wpc<T>): QState<T> {
    Goto(q.(ring := ring), t, w)
  }

  ghost predicate OnRing<T>(w: Wpc<T>) {
    w.PushRing? || w.PopRing? || w.ClearRing?
  }

  lemma RingMove<T(!new)>(q: QState<T>, t: Tid, expired: bool, w: Wpc<T>, s: State<T>, s': State<T>)
    requires OnRing(w) && Wf(s) && Moves(s, t, s')
    ensures Goes(t, expired, With(q, s, t, w), 1, With(q, s', t, w))
  {
    GotoTwice(q.(ring := s), t, w, w);
    Steps(t, expired, With(q, s, t, w), With(q, s', t, w));
  }

  lemma {:induction false} RingCall<T(!new)>(q: QState<T>, t: Tid, expired: bool, w: Wpc<T>, path: seq<State<T>>, k: nat)
    requires OnRing(w) && IsPath(path, t) && k < |path|
    ensures Goes(t, expired, With(q, path[0], t, w), k, With(q, path[k], t, w))
    decreases k
  {
    if k == 0 {
      Stays(StepOf<T>(t, expired), With(q, path[0], t, w));
    } else {
      RingCall(q, t, expired, w, path, k - 1);
      assert Moves(path[k - 1], t, path[k]);
      RingMove(q, t, expired, w, path[k - 1], path[k]);
      Then(t, expired, With(q, path[0], t, w), k - 1, With(q, path[k - 1], t, w), 1, With(q, path[k], t, w));
    }
  }

  // ------------------------------------------------------------------------------ push

  lemma PushLocks<T(!new)>(m: QState<T>, t: Tid, expired: bool, p: nat)
    requires Wf(m.ring) && PcOf(m.ring, t) == Returned(PushOk(p)) && m.mutex.None?
    ensures Goes(t, expired, Goto(m, t, PushRing), 1, Goto(m, t, PushLock(p)))
    ensures Goes(t, expired, Goto(m, t, PushLock(p)), 1, Goto(m.(mutex := Some(t)), t, PushUnlock(p)))
  {
    GotoTwice(m, t, PushRing, PushLock(p));
    Steps(t, expired, Goto(m, t, PushRing), Goto(m, t, PushLock(p)));
    GotoTwice(m, t, PushLock(p), PushLock(p));
    GotoTwice(m.(mutex := Some(t)), t, PushLock(p), PushUnlock(p));
    Steps(t, expired, Goto(m, t, PushLock(p)), Goto(m.(mutex := Some(t)), t, PushUnlock(p)));
  }

  lemma PushNotifies<T(!new)>(m: QState<T>, t: Tid, expired: bool, p: nat)
    requires Wf(m.ring) && m.mutex.None?
    ensures Goes(t, expired, Goto(m.(mutex := Some(t)), t, PushUnlock(p)), 1, Goto(m, t, PushNotify(p)))
    ensures Goes(t, expired, Goto(m, t, PushNotify(p)), 1, Goto(Notify(Goto(m, t, PushNotify(p))), t, Outside))
  {
    GotoTwice(m.(mutex := Some(t)), t, PushUnlock(p), PushNotify(p));
    GotoTwice(m, t, PushUnlock(p), PushNotify(p));
    Steps(t, expired, Goto(m.(mutex := Some(t)), t, PushUnlock(p)), Goto(m, t, PushNotify(p)));
    GotoTwice(m, t, PushNotify(p), Outside);
    Steps(t, expired, Goto(m, t, PushNotify(p)), Goto(Notify(Goto(m, t, PushNotify(p))), t, Outside));
  }

  /** A push whose item is in the ring takes and gives back the mutex, and notifies. */
  lemma PushEnds<T(!new)>(m: QState<T>, t: Tid, expired: bool, p: nat)
    requires Wf(m.ring) && PcOf(m.ring, t) == Returned(PushOk(p)) && m.mutex.None?
    ensures Goes(t, expired, Goto(m, t, PushRing), 4, Goto(Notify(Goto(m, t, PushNotify(p))), t, Outside))
  {
    var a, b, c := Goto(m, t, PushRing), Goto(m, t, PushLock(p)), Goto(m.(mutex := Some(t)), t, PushUnlock(p));
    var d := Goto(m, t, PushNotify(p));
    PushLocks(m, t, expired, p);
    PushNotifies(m, t, expired, p);
    Then(t, expired, a, 1, b, 1, c);
    Then(t, expired, a, 2, c, 1, d);
    Then(t, expired, a, 3, d, 1, Goto(Notify(d), t, Outside));
  }

  lemma PushEnters<T(!new)>(q: QState<T>, t: Tid, expired: bool, item: T)
    requires Wf(q.ring) && Resting(PcOf(q.ring, t))
    ensures Goes(t, expired, Goto(q, t, PushCheck(item)), 1,
                 if q.shutdown then Goto(q, t, Outside) else With(q, At(q.ring, t, PushLoadPos(item)), t, PushRing))
  {
    GotoTwice(q, t, PushCheck(item), Outside);
    GotoTwice(q.(ring := At(q.ring, t, PushLoadPos(item))), t, PushCheck(item), PushRing);
    Steps(t, expired, Goto(q, t, PushCheck(item)),
          if q.shutdown then Goto(q, t, Outside) else With(q, At(q.ring, t, PushLoadPos(item)), t, PushRing));
  }

  lemma PushDrops<T(!new)>(q: QState<T>, t: Tid, expired: bool)
    requires Wf(q.ring) && PcOf(q.ring, t) == Returned(PushFull)
    ensures Goes(t, expired, Goto(q, t, PushRing), 1, Goto(q, t, Outside))
  {
    GotoTwice(q, t, PushRing, Outside);
    Steps(t, expired, Goto(q, t, PushRing), Goto(q, t, Outside));
  }

  /** Nobody else is inside a ring call, nobody holds the mutex, and t is between calls. */
  ghost predicate Quiet<T>(q: QState<T>, t: Tid) {
    QInv(q) && q.mutex.None? && WpcOf(q, t).Outside? && OthersRest(q.ring, t)
  }

  lemma QuietIsCalm<T>(q: QState<T>, t: Tid)
    requires Quiet(q, t)
    ensures Calm(q.ring, t) && Resting(PcOf(q.ring, t)) && Wf(q.ring) && Counters(q.ring)
  {
    assert Agrees(q, t);
  }

  /** The whole queue after a push that found room. */
  function Taken<T>(q: QState<T>, t: Tid, item: T): QState<T>
    requires Wf(q.ring)
  {
    Goto(Notify(Goto(q.(ring := Pushed(q.ring, t, item)), t, PushNotify(q.ring.head))), t, Outside)
  }

  lemma PushTaken<T(!new)>(q: QState<T>, t: Tid, expired: bool, item: T)
    requires Quiet(q, t) && !q.shutdown && q.ring.head < q.ring.tail + q.ring.capacity
    ensures Goes(t, expired, Goto(q, t, PushCheck(item)), 10, Taken(q, t, item))
  {
    QuietIsCalm(q, t);
    CalmHead(q.ring, t);
    var path := PushPath(q.ring, t, item);
    var a, b, c := Goto(q, t, PushCheck(item)), With(q, path[0], t, PushRing), With(q, path[5], t, PushRing);
    AtTwice(q.ring, t, Ready, Returned(PushOk(q.ring.head)));
    PushEnters(q, t, expired, item);
    RingCall(q, t, expired, PushRing, path, 5);
    PushEnds(q.(ring := path[5]), t, expired, q.ring.head);
    Then(t, expired, a, 1, b, 5, c);
    Then(t, expired, a, 6, c, 4, Taken(q, t, item));
  }

  lemma PushRefused<T(!new)>(q: QState<T>, t: Tid, expired: bool, item: T)
    requires Quiet(q, t) && !q.shutdown && q.ring.head == q.ring.tail + q.ring.capacity
    ensures Goes(t, expired, Goto(q, t, PushCheck(item)), 5, With(q, At(q.ring, t, Returned(PushFull)), t, Outside))
  {
    QuietIsCalm(q, t);
    CalmHead(q.ring, t);
    var path := FullPath(q.ring, t, item);
    var a, b, c := Goto(q, t, PushCheck(item)), With(q, path[0], t, PushRing), With(q, path[3], t, PushRing);
    AtTwice(q.ring, t, Ready, Returned(PushFull));
    PushEnters(q, t, expired, item);
    RingCall(q, t, expired, PushRing, path, 3);
    PushDrops(q.(ring := path[3]), t, expired);
    Then(t, expired, a, 1, b, 3, c);
    Then(t, expired, a, 4, c, 1, With(q, path[3], t, Outside));
  }

  // ------------------------------------------------------------------------------- pop

  /** The queue with thread t at place w and the answer of its last ring call. */
  function Answered<T>(q: QState<T>, t: Tid, a: Answer<T>, w: Wpc<T>): QState<T> {
    With(q, At(q.ring, t, Returned(a)), t, w)
  }

  /** The queue with thread t at the start of a pop from the ring. */
  function Trying<T>(q: QState<T>, t: Tid, w: Wpc<T>): QState<T> {
    With(q, At(q.ring, t, PopLoadPos), t, w)
  }

  lemma PopEnters<T(!new)>(q: QState<T>, t: Tid, op: Operation<T>)
    requires Quiet(q, t) && t == q.consumer && (op.DoPop? || op.DoTryPop? || op.DoRearm?)
    ensures QNext(q, Begin(t, op)) ==
            Trying(q, t, if op.DoPop? then PopRing(Spin(0), op.timed) else if op.DoTryPop? then PopRing(Last, false) else ClearRing)
  {
    QuietIsCalm(q, t);
  }

  lemma PopReturns<T(!new)>(q: QState<T>, t: Tid, expired: bool, attempt: Attempt, timed: bool, p: nat, item: Option<T>)
    requires Wf(q.ring) && PcOf(q.ring, t) == Returned(PopOk(p, item))
    ensures Goes(t, expired, Goto(q, t, PopRing(attempt, timed)), 1, Goto(Unlock(q, attempt), t, Outside))
  {
    GotoTwice(q, t, PopRing(attempt, timed), Outside);
    GotoTwice(Unlock(q, attempt), t, PopRing(attempt, timed), Outside);
    Steps(t, expired, Goto(q, t, PopRing(attempt, timed)), Goto(Unlock(q, attempt), t, Outside));
  }

  /** An attempt on a ring with a published oldest item takes it. */
  lemma PopTakes<T(!new)>(q: QState<T>, t: Tid, expired: bool, attempt: Attempt, timed: bool)
    requires Wf(q.ring) && SeqAt(q.ring, q.ring.tail) == q.ring.tail + 1
    ensures Goes(t, expired, Trying(q, t, PopRing(attempt, timed)), 6,
                 With(Unlock(q, attempt), Popped(q.ring, t), t, Outside))
  {
    var path := PopPath(q.ring, t);
    var w := PopRing(attempt, timed);
    AtTwice(q.ring, t, Ready, Returned(PopOk(q.ring.tail, DataAt(q.ring, q.ring.tail))));
    RingCall(q, t, expired, w, path, 5);
    PopReturns(q.(ring := path[5]), t, expired, attempt, timed, q.ring.tail, DataAt(q.ring, q.ring.tail));
    Then(t, expired, Trying(q, t, w), 5, With(q, path[5], t, w), 1, With(Unlock(q, attempt), path[5], t, Outside));
  }

  lemma PopReports<T(!new)>(q: QState<T>, t: Tid, expired: bool, attempt: Attempt, timed: bool)
    requires Wf(q.ring) && PcOf(q.ring, t) == Returned(PopEmpty)
    ensures Goes(t, expired, Goto(q, t, PopRing(attempt, timed)), 1,
                 Goto(q, t, if attempt.Last? then Outside else PopCheck(attempt, timed)))
  {
    var w := if attempt.Last? then Outside else PopCheck(attempt, timed);
    GotoTwice(q, t, PopRing(attempt, timed), w);
    Steps(t, expired, Goto(q, t, PopRing(attempt, timed)), Goto(q, t, w));
  }

  /** An attempt on an empty ring changes nothing. */
  lemma PopMisses<T(!new)>(q: QState<T>, t: Tid, expired: bool, attempt: Attempt, timed: bool)
    requires Wf(q.ring) && SeqAt(q.ring, q.ring.tail) < q.ring.tail + 1
    ensures Goes(t, expired, Trying(q, t, PopRing(attempt, timed)), 4,
                 Answered(q, t, PopEmpty, if attempt.Last? then Outside else PopCheck(attempt, timed)))
  {
    var path := EmptyPath(q.ring, t);
    var w := PopRing(attempt, timed);
    AtTwice(q.ring, t, Ready, Returned(PopEmpty));
    RingCall(q, t, expired, w, path, 3);
    PopReports(q.(ring := path[3]), t, expired, attempt, timed);
    Then(t, expired, Trying(q, t, w), 3, With(q, path[3], t, w), 1,
         Answered(q, t, PopEmpty, if attempt.Last? then Outside else PopCheck(attempt, timed)));
  }

  /** After a miss: stop if the queue is shut down, park with the mutex in hand, try again, or go
      for the mutex. */
  lemma PopChecks<T(!new)>(q: QState<T>, t: Tid, expired: bool, attempt: Attempt, timed: bool)
    requires Wf(q.ring) && !attempt.Last?
    ensures Goes(t, expired, Answered(q, t, PopEmpty, PopCheck(attempt, timed)), 1,
                 if q.shutdown then Answered(Unlock(q, attempt), t, PopEmpty, Outside)
                 else if attempt.Locked? then Answered(q, t, PopEmpty, PopPark(timed))
                 else if attempt.i + 1 < SPIN_COUNT + YIELD_COUNT then Trying(q, t, PopRing(Spin(attempt.i + 1), timed))
                 else Answered(q, t, PopEmpty, PopLock(timed)))
  {
    var m := q.(ring := At(q.ring, t, Returned(PopEmpty)));
    AtTwice(q.ring, t, Returned(PopEmpty), PopLoadPos);
    GotoTwice(m, t, PopCheck(attempt, timed), PopPark(timed));
    GotoTwice(m, t, PopCheck(attempt, timed), PopLock(timed));
    GotoTwice(Unlock(m, attempt), t, PopCheck(attempt, timed), Outside);
    if attempt.Spin? {
      GotoTwice(q.(ring := At(q.ring, t, PopLoadPos)), t, PopCheck(attempt, timed), PopRing(Spin(attempt.i + 1), timed));
    }
    var a := Answered(q, t, PopEmpty, PopCheck(attempt, timed));
    Steps(t, expired, a, Go(t, expired, a));
  }

  /** The mutex is free: take it for an attempt, unless the deadline of a timed pop has passed. */
  lemma PopLocks<T(!new)>(q: QState<T>, t: Tid, expired: bool, timed: bool)
    requires Wf(q.ring) && q.mutex.None? && Resting(PcOf(q.ring, t))
    ensures Goes(t, expired, Goto(q, t, PopLock(timed)), 1,
                 if timed && expired then Trying(q, t, PopRing(Last, timed))
                 else Trying(q.(mutex := Some(t)), t, PopRing(Locked, timed)))
  {
    GotoTwice(q.(ring := At(q.ring, t, PopLoadPos)), t, PopLock(timed), PopRing(Last, timed));
    GotoTwice(q.(ring := At(q.ring, t, PopLoadPos), mutex := Some(t)), t, PopLock(timed), PopRing(Locked, timed));
    Steps(t, expired, Goto(q, t, PopLock(timed)), Go(t, expired, Goto(q, t, PopLock(timed))));
  }

  lemma PopParks<T(!new)>(q: QState<T>, t: Tid, expired: bool, timed: bool)
    requires Wf(q.ring) && q.mutex.None?
    ensures Goes(t, expired, Goto(q.(mutex := Some(t)), t, PopPark(timed)), 1, Goto(q, t, Parked(false, timed)))
    ensures !(timed && expired) ==> Goes(t, expired, Goto(q, t, Parked(false, timed)), 1, Goto(q, t, Parked(false, timed)))
  {
    GotoTwice(q, t, PopPark(timed), Parked(false, timed));
    Steps(t, expired, Goto(q.(mutex := Some(t)), t, PopPark(timed)), Goto(q, t, Parked(false, timed)));
    if !(timed && expired) {
      Steps(t, expired, Goto(q, t, Parked(false, timed)), Goto(q, t, Parked(false, timed)));
    }
  }

  lemma PopWakes<T(!new)>(q: QState<T>, t: Tid, expired: bool, notified: bool, timed: bool)
    requires Wf(q.ring) && (notified || (timed && expired))
    ensures Goes(t, expired, Goto(q, t, Parked(notified, timed)), 1, Goto(q, t, PopLock(timed)))
  {
    GotoTwice(q, t, Parked(notified, timed), PopLock(timed));
    Steps(t, expired, Goto(q, t, Parked(notified, timed)), Goto(q, t, PopLock(timed)));
  }

  /** One failed attempt after another. */
  lemma {:induction false} PopSpins<T(!new)>(q: QState<T>, t: Tid, expired: bool, timed: bool, i: nat)
    requires Wf(q.ring) && SeqAt(q.ring, q.ring.tail) < q.ring.tail + 1 && !q.shutdown && i < SPIN_COUNT + YIELD_COUNT
    ensures Goes(t, expired, Trying(q, t, PopRing(Spin(0), timed)), 5 * i, Trying(q, t, PopRing(Spin(i), timed)))
  {
    var a, d := Trying(q, t, PopRing(Spin(0), timed)), Trying(q, t, PopRing(Spin(i), timed));
    if i == 0 {
      Stays(StepOf<T>(t, expired), a);
    } else {
      var b := Trying(q, t, PopRing(Spin(i - 1), timed));
      var c := Answered(q, t, PopEmpty, PopCheck(Spin(i - 1), timed));
      PopSpins(q, t, expired, timed, i - 1);
      PopMisses(q, t, expired, Spin(i - 1), timed);
      PopChecks(q, t, expired, Spin(i - 1), timed);
      Then(t, expired, b, 4, c, 1, d);
      Then(t, expired, a, 5 * (i - 1), b, 5, d);
    }
  }

  const ATTEMPTS: nat := SPIN_COUNT + YIELD_COUNT

  /** After its last spinning attempt a pop goes for the mutex. */
  lemma PopTires<T(!new)>(q: QState<T>, t: Tid, expired: bool, timed: bool)
    requires Wf(q.ring) && SeqAt(q.ring, q.ring.tail) < q.ring.tail + 1 && !q.shutdown
    ensures Goes(t, expired, Trying(q, t, PopRing(Spin(0), timed)), 5 * ATTEMPTS, Answered(q, t, PopEmpty, PopLock(timed)))
  {
    var a, d := Trying(q, t, PopRing(Spin(0), timed)), Answered(q, t, PopEmpty, PopLock(timed));
    var b := Trying(q, t, PopRing(Spin(ATTEMPTS - 1), timed));
    var c := Answered(q, t, PopEmpty, PopCheck(Spin(ATTEMPTS - 1), timed));
    PopSpins(q, t, expired, timed, ATTEMPTS - 1);
    PopMisses(q, t, expired, Spin(ATTEMPTS - 1), timed);
    PopChecks(q, t, expired, Spin(ATTEMPTS - 1), timed);
    Then(t, expired, b, 4, c, 1, d);
    Then(t, expired, a, 5 * (ATTEMPTS - 1), b, 5, d);
  }

  // -------------------------------------------------------------------- shutdown and re-arm

  lemma StopStores<T(!new)>(q: QState<T>, t: Tid, expired: bool)
    requires Wf(q.ring) && q.mutex.None?
    ensures var m := q.(shutdown := true, stopper := t);
            && Goes(t, expired, Goto(q, t, StopStore), 1, Goto(m, t, StopLock))
            && Goes(t, expired, Goto(m, t, StopLock), 1, Goto(m.(mutex := Some(t)), t, StopUnlock))
  {
    var m := q.(shutdown := true, stopper := t);
    GotoTwice(m, t, StopStore, StopLock);
    Steps(t, expired, Goto(q, t, StopStore), Goto(m, t, StopLock));
    GotoTwice(m.(mutex := Some(t)), t, StopLock, StopUnlock);
    Steps(t, expired, Goto(m, t, StopLock), Goto(m.(mutex := Some(t)), t, StopUnlock));
  }

  lemma StopNotifies<T(!new)>(m: QState<T>, t: Tid, expired: bool)
    requires Wf(m.ring) && m.mutex.None?
    ensures Goes(t, expired, Goto(m.(mutex := Some(t)), t, StopUnlock), 1, Goto(m, t, StopNotify))
    ensures Goes(t, expired, Goto(m, t, StopNotify), 1, Goto(Notify(Goto(m, t, StopNotify)), t, Outside))
  {
    GotoTwice(m, t, StopUnlock, StopNotify);
    Steps(t, expired, Goto(m.(mutex := Some(t)), t, StopUnlock), Goto(m, t, StopNotify));
    GotoTwice(m, t, StopNotify, Outside);
    Steps(t, expired, Goto(m, t, StopNotify), Goto(Notify(Goto(m, t, StopNotify)), t, Outside));
  }

  /** The whole queue after a shutdown. */
  function Stopped<T>(q: QState<T>, t: Tid): QState<T> {
    Goto(Notify(Goto(q.(shutdown := true, stopper := t), t, StopNotify)), t, Outside)
  }

  lemma Stops<T(!new)>(q: QState<T>, t: Tid, expired: bool)
    requires Wf(q.ring) && q.mutex.None?
    ensures Goes(t, expired, Goto(q, t, StopStore), 4, Stopped(q, t))
  {
    var m := q.(shutdown := true, stopper := t);
    var a, b, c, d := Goto(q, t, StopStore), Goto(m, t, StopLock), Goto(m.(mutex := Some(t)), t, StopUnlock), Goto(m, t, StopNotify);
    StopStores(q, t, expired);
    StopNotifies(m, t, expired);
    Then(t, expired, a, 1, b, 1, c);
    Then(t, expired, a, 2, c, 1, d);
    Then(t, expired, a, 3, d, 1, Stopped(q, t));
  }

  lemma ClearsOn<T(!new)>(q: QState<T>, t: Tid, expired: bool, p: nat, item: Option<T>)
    requires Wf(q.ring) && PcOf(q.ring, t) == Returned(PopOk(p, item))
    ensures Goes(t, expired, Goto(q, t, ClearRing), 1, Trying(q, t, ClearRing))
  {
    GotoTwice(q.(ring := At(q.ring, t, PopLoadPos)), t, ClearRing, ClearRing);
    Steps(t, expired, Goto(q, t, ClearRing), Trying(q, t, ClearRing));
  }

  lemma ClearsLast<T(!new)>(q: QState<T>, t: Tid, expired: bool)
    requires Wf(q.ring) && PcOf(q.ring, t) == Returned(PopEmpty)
    ensures Goes(t, expired, Goto(q, t, ClearRing), 1, Goto(q, t, RearmStore))
    ensures Goes(t, expired, Goto(q, t, RearmStore), 1, Goto(q.(shutdown := false), t, Outside))
  {
    GotoTwice(q, t, ClearRing, RearmStore);
    Steps(t, expired, Goto(q, t, ClearRing), Goto(q, t, RearmStore));
    GotoTwice(q.(shutdown := false), t, RearmStore, Outside);
    Steps(t, expired, Goto(q, t, RearmStore), Goto(q.(shutdown := false), t, Outside));
  }

  /** Clearing a ring that holds an item drops the oldest one. */
  lemma ClearsOne<T(!new)>(q: QState<T>, t: Tid, expired: bool)
    requires Wf(q.ring) && SeqAt(q.ring, q.ring.tail) == q.ring.tail + 1
    ensures Goes(t, expired, Trying(q, t, ClearRing), 6, Trying(q.(ring := Popped(q.ring, t)), t, ClearRing))
  {
    var path := PopPath(q.ring, t);
    AtTwice(q.ring, t, Ready, Returned(PopOk(q.ring.tail, DataAt(q.ring, q.ring.tail))));
    RingCall(q, t, expired, ClearRing, path, 5);
    ClearsOn(q.(ring := path[5]), t, expired, q.ring.tail, DataAt(q.ring, q.ring.tail));
    Then(t, expired, Trying(q, t, ClearRing), 5, With(q, path[5], t, ClearRing), 1, Trying(q.(ring := path[5]), t, ClearRing));
  }

  lemma ClearsNone<T(!new)>(q: QState<T>, t: Tid, expired: bool)
    requires Wf(q.ring) && SeqAt(q.ring, q.ring.tail) < q.ring.tail + 1
    ensures Goes(t, expired, Trying(q, t, ClearRing), 5, Answered(q.(shutdown := false), t, PopEmpty, Outside))
  {
    var path := EmptyPath(q.ring, t);
    var m := q.(ring := path[3]);
    AtTwice(q.ring, t, Ready, Returned(PopEmpty));
    RingCall(q, t, expired, ClearRing, path, 3);
    ClearsLast(m, t, expired);
    Then(t, expired, Trying(q, t, ClearRing), 3, Goto(m, t, ClearRing), 1, Goto(m, t, RearmStore));
    Then(t, expired, Trying(q, t, ClearRing), 4, Goto(m, t, RearmStore), 1, Goto(m.(shutdown := false), t, Outside));
  }

  lemma {:induction false} PathInv<T>(path: seq<State<T>>, t: Tid, k: nat)
    requires IsPath(path, t) && k < |path| && Inv(path[0])
    ensures Inv(path[k])
    decreases k
  {
    if k > 0 {
      PathInv(path, t, k - 1);
      assert Moves(path[k - 1], t, path[k]);
      NextKeepsInv(path[k - 1], Move(t, false));
    }
  }

  /** A pop run alone keeps the ring's invariant and rests again. */
  lemma PoppedIsCalm<T>(s: State<T>, t: Tid)
    requires Calm(s, t) && Resting(PcOf(s, t)) && s.tail < s.head
    ensures var s' := Popped(s, t);
            Calm(s', t) && Resting(PcOf(s', t)) && s'.tail == s.tail + 1 && s'.head == s.head && s'.pushed == s.pushed
  {
    CalmTail(s, t);
    var path := PopPath(s, t);
    CallFrame(s, t, Pop);
    PathInv(path, t, 5);
    var s' := Popped(s, t);
    forall u: Tid | u != t ensures Resting(PcOf(s', u)) {
      assert Resting(PcOf(s, u));
    }
  }

  lemma ClearsMore<T(!new)>(q: QState<T>, t: Tid, expired: bool, n: nat, b: QState<T>)
    requires Calm(q.ring, t) && q.ring.tail < q.ring.head
    requires Goes(t, expired, Trying(q.(ring := Popped(q.ring, t)), t, ClearRing), n, b)
    ensures Goes(t, expired, Trying(q, t, ClearRing), 6 + n, b)
  {
    CalmTail(q.ring, t);
    ClearsOne(q, t, expired);
    Then(t, expired, Trying(q, t, ClearRing), 6, Trying(q.(ring := Popped(q.ring, t)), t, ClearRing), n, b);
  }

  lemma AnsweredRests<T>(s: State<T>, t: Tid, a: Answer<T>)
    requires OthersRest(s, t)
    ensures OthersRest(At(s, t, Returned(a)), t)
  {
    forall u: Tid | u != t ensures Resting(PcOf(At(s, t, Returned(a)), u)) {
      assert Resting(PcOf(s, u));
    }
  }

  lemma ClearsEmpty<T(!new)>(q: QState<T>, t: Tid, expired: bool) returns (ring: State<T>)
    requires Calm(q.ring, t) && q.ring.tail == q.ring.head
    ensures Goes(t, expired, Trying(q, t, ClearRing), 5, With(q.(shutdown := false), ring, t, Outside))
    ensures ring.head == ring.tail && Wf(ring) && OthersRest(ring, t)
  {
    CalmTail(q.ring, t);
    ClearsNone(q, t, expired);
    ring := At(q.ring, t, Returned(PopEmpty));
    AnsweredRests(q.ring, t, PopEmpty);
  }

  /** Re-arming empties the ring item by item and lowers the flag last. */
  lemma {:induction false} Clears<T(!new)>(q: QState<T>, t: Tid, expired: bool, items: nat) returns (ring: State<T>)
    requires Calm(q.ring, t) && Resting(PcOf(q.ring, t)) && q.ring.head == q.ring.tail + items
    ensures Goes(t, expired, Trying(q, t, ClearRing), 6 * items + 5, With(q.(shutdown := false), ring, t, Outside))
    ensures ring.head == ring.tail && Wf(ring) && OthersRest(ring, t)
    decreases items
  {
    if items == 0 {
      ring := ClearsEmpty(q, t, expired);
    } else {
      PoppedIsCalm(q.ring, t);
      ring := Clears(q.(ring := Popped(q.ring, t)), t, expired, items - 1);
      ClearsMore(q, t, expired, 6 * (items - 1) + 5, With(q.(shutdown := false), ring, t, Outside));
    }
  }
}
