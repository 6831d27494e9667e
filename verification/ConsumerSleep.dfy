/** A consumer with nothing to do: how the blocking pop spins, yields and falls asleep. */
module ConsumerSleep {
  import opened Options
  import opened MpmcRing
  import opened BlockingQueue
  import opened WakeupProof

  /** An empty, open queue whose only active thread is the consumer. */
  function Idle<T>(capacity: nat, c: Tid, pc: Pc<T>, w: Wpc<T>, mutex: Option<Tid>): (q: QState<T>)
    requires capacity >= 2
    ensures Wf(q.ring)
  {
    QState(Init(capacity).(threads := map[c := pc]), mutex, false, map[c := w], c, c)
  }

  /** The five states of a failing attempt, from its first load to the check for shutdown. */
  function Trying<T>(capacity: nat, c: Tid, attempt: Attempt, mutex: Option<Tid>, j: nat): (q: QState<T>)
    requires capacity >= 2 && j < 5
    ensures Wf(q.ring)
  {
    var ring: Wpc<T> := PopRing(attempt, false);
    if j == 0 then Idle(capacity, c, PopLoadPos, ring, mutex)
    else if j == 1 then Idle(capacity, c, PopLoadSeq(0), ring, mutex)
    else if j == 2 then Idle(capacity, c, PopDecide(0, 0), ring, mutex)
    else if j == 3 then Idle(capacity, c, Returned(PopEmpty), ring, mutex)
    else Idle(capacity, c, Returned(PopEmpty), PopCheck(attempt, false), mutex)
  }

  const ATTEMPTS: nat := SPIN_COUNT + YIELD_COUNT

  /** Where the consumer stands n steps after calling pop: spinning and yielding, then an attempt
      with the mutex in hand, then parked. */
  function Expected<T>(capacity: nat, c: Tid, n: nat): (q: QState<T>)
    requires capacity >= 2
    ensures Wf(q.ring)
  {
    var rest := n - 5 * ATTEMPTS;
    if rest < 0 then Trying(capacity, c, Spin(n / 5), None, n % 5)
    else if rest == 0 then Idle(capacity, c, Returned(PopEmpty), PopLock(false), None)
    else if rest < 6 then Trying(capacity, c, Locked, Some(c), rest - 1)
    else if rest == 6 then Idle(capacity, c, Returned(PopEmpty), PopPark(false), Some(c))
    else Idle(capacity, c, Returned(PopEmpty), Parked(false, false), None)
  }

  function Go<T>(q: QState<T>): QState<T>
    requires Wf(q.ring)
  {
    QNext(q, Step(q.consumer, false, false))
  }

  lemma LoadsPos<T>(capacity: nat, c: Tid, attempt: Attempt, mutex: Option<Tid>)
    requires capacity >= 2 && !attempt.Last?
    ensures Go(Trying<T>(capacity, c, attempt, mutex, 0)) == Trying(capacity, c, attempt, mutex, 1)
  {
  }

  lemma LoadsSeq<T>(capacity: nat, c: Tid, attempt: Attempt, mutex: Option<Tid>)
    requires capacity >= 2 && !attempt.Last?
    ensures Go(Trying<T>(capacity, c, attempt, mutex, 1)) == Trying(capacity, c, attempt, mutex, 2)
  {
  }

  lemma FindsEmpty<T>(capacity: nat, c: Tid, attempt: Attempt, mutex: Option<Tid>)
    requires capacity >= 2 && !attempt.Last?
    ensures Go(Trying<T>(capacity, c, attempt, mutex, 2)) == Trying(capacity, c, attempt, mutex, 3)
  {
  }

  lemma AnswersEmpty<T>(capacity: nat, c: Tid, attempt: Attempt, mutex: Option<Tid>)
    requires capacity >= 2 && !attempt.Last?
    ensures Go(Trying<T>(capacity, c, attempt, mutex, 3)) == Trying(capacity, c, attempt, mutex, 4)
  {
  }

  lemma AttemptStep<T>(capacity: nat, c: Tid, attempt: Attempt, mutex: Option<Tid>, j: nat)
    requires capacity >= 2 && !attempt.Last? && j < 4
    ensures Go(Trying<T>(capacity, c, attempt, mutex, j)) == Trying(capacity, c, attempt, mutex, j + 1)
  {
    LoadsPos<T>(capacity, c, attempt, mutex);
    LoadsSeq<T>(capacity, c, attempt, mutex);
    FindsEmpty<T>(capacity, c, attempt, mutex);
    AnswersEmpty<T>(capacity, c, attempt, mutex);
  }

  lemma CheckStep<T>(capacity: nat, c: Tid, i: nat)
    requires capacity >= 2 && i < ATTEMPTS
    ensures Go(Trying<T>(capacity, c, Spin(i), None, 4)) ==
            if i + 1 < ATTEMPTS then Trying(capacity, c, Spin(i + 1), None, 0)
            else Idle(capacity, c, Returned(PopEmpty), PopLock(false), None)
  {
  }

  lemma LockedSteps<T>(capacity: nat, c: Tid)
    requires capacity >= 2
    ensures Go(Idle<T>(capacity, c, Returned(PopEmpty), PopLock(false), None)) == Trying(capacity, c, Locked, Some(c), 0)
    ensures Go(Trying<T>(capacity, c, Locked, Some(c), 4)) == Idle(capacity, c, Returned(PopEmpty), PopPark(false), Some(c))
    ensures Go(Idle<T>(capacity, c, Returned(PopEmpty), PopPark(false), Some(c))) ==
            Idle(capacity, c, Returned(PopEmpty), Parked(false, false), None)
  {
  }

  lemma ExpectedStep<T>(capacity: nat, c: Tid, n: nat)
    requires capacity >= 2 && n < 5 * ATTEMPTS + 7
    ensures Go(Expected<T>(capacity, c, n)) == Expected(capacity, c, n + 1)
  {
    var locked := n >= 5 * ATTEMPTS;
    var attempt, mutex := if locked then Locked else Spin(n / 5), if locked then Some(c) else None;
    var j := if locked then n - 5 * ATTEMPTS - 1 else n % 5;
    if 0 <= j < 4 {
      AttemptStep<T>(capacity, c, attempt, mutex, j);
    } else if locked {
      LockedSteps<T>(capacity, c);
    } else {
      CheckStep<T>(capacity, c, n / 5);
    }
  }

  /** The consumer calls pop and takes n steps while nobody else does anything. */
  ghost predicate IsSolo<T>(schedule: seq<QAction<T>>, c: Tid, n: nat) {
    && |schedule| == n + 1 && schedule[0] == Begin(c, DoPop(false))
    && forall i :: 1 <= i <= n ==> schedule[i] == Step(c, false, false)
  }

  ghost predicate SoloReaches<T(!new)>(capacity: nat, c: Tid, n: nat, q: QState<T>)
    requires capacity >= 2
  {
    exists schedule: seq<QAction<T>> :: IsSolo(schedule, c, n) && QRun(QInit<T>(capacity, c), schedule) == q
  }

  lemma SoloGoesOn<T(!new)>(capacity: nat, c: Tid, n: nat, q: QState<T>)
    requires capacity >= 2 && Wf(q.ring) && q.consumer == c && SoloReaches(capacity, c, n, q)
    ensures SoloReaches(capacity, c, n + 1, Go(q))
  {
    var q0 := QInit<T>(capacity, c);
    var schedule: seq<QAction<T>> :| IsSolo(schedule, c, n) && QRun(q0, schedule) == q;
    var longer := schedule + [Step(c, false, false)];
    assert longer[..|longer| - 1] == schedule;
    assert IsSolo(longer, c, n + 1) && QRun(q0, longer) == Go(q);
  }

  lemma SoloBegins<T(!new)>(capacity: nat, c: Tid)
    requires capacity >= 2
    ensures SoloReaches<T>(capacity, c, 0, Expected(capacity, c, 0))
  {
    var schedule: seq<QAction<T>> := [Begin(c, DoPop(false))];
    assert schedule[..0] == [];
    assert IsSolo(schedule, c, 0) && QRun(QInit<T>(capacity, c), schedule) == Expected(capacity, c, 0);
  }

  lemma {:induction false} SoloRuns<T(!new)>(capacity: nat, c: Tid, n: nat)
    requires capacity >= 2 && n <= 5 * ATTEMPTS + 7
    ensures SoloReaches<T>(capacity, c, n, Expected(capacity, c, n))
  {
    if n == 0 {
      SoloBegins<T>(capacity, c);
    } else {
      SoloRuns<T>(capacity, c, n - 1);
      SoloStep<T>(capacity, c, n - 1);
    }
  }

  lemma SoloStep<T(!new)>(capacity: nat, c: Tid, n: nat)
    requires capacity >= 2 && n < 5 * ATTEMPTS + 7 && SoloReaches<T>(capacity, c, n, Expected(capacity, c, n))
    ensures SoloReaches<T>(capacity, c, n + 1, Expected(capacity, c, n + 1))
  {
    ExpectedStep<T>(capacity, c, n);
    SoloGoesOn<T>(capacity, c, n, Expected(capacity, c, n));
  }

  lemma OnlySolo<T(!new)>(capacity: nat, c: Tid, n: nat, schedule: seq<QAction<T>>, q: QState<T>)
    requires capacity >= 2 && IsSolo(schedule, c, n) && SoloReaches(capacity, c, n, q)
    ensures QRun(QInit<T>(capacity, c), schedule) == q
  {
    var same: seq<QAction<T>> :| IsSolo(same, c, n) && QRun(QInit<T>(capacity, c), same) == q;
    assert same == schedule;
  }

  lemma ExpectedSleeps<T>(capacity: nat, c: Tid, n: nat)
    requires capacity >= 2 && n <= 5 * ATTEMPTS + 7
    ensures Asleep(Expected<T>(capacity, c, n)) <==> n == 5 * ATTEMPTS + 7
  {
  }

  /** On an empty, open queue the consumer falls asleep, and not before it has made its 140
      attempts of five steps each and one more with the mutex in hand. */
  lemma IdleConsumerSleeps<T(!new)>(capacity: nat, c: Tid, n: nat, schedule: seq<QAction<T>>)
    requires capacity >= 2 && IsSolo(schedule, c, n) && n <= 5 * (SPIN_COUNT + YIELD_COUNT) + 7
    ensures Asleep(QRun(QInit<T>(capacity, c), schedule)) <==> n == 5 * (SPIN_COUNT + YIELD_COUNT) + 7
  {
    var q := Expected<T>(capacity, c, n);
    ExpectedSleeps<T>(capacity, c, n);
    SoloRuns<T>(capacity, c, n);
    OnlySolo(capacity, c, n, schedule, q);
  }
}
