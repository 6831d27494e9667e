/** The fixed-rate worker of the example Service Model: it sleeps to deadlines one period apart
    and re-anchors when it has fallen behind. */
module Pacer {
  import opened Bits

  /** What one cycle meets: time before the clock is read, how late the wake-up is, whether
      anybody is subscribed, and the time until the indication is emitted. */
  datatype Cycle = Cycle(idle: nat, late: nat, subscribed: bool, work: nat)

  /** The next deadline, the time now, and when indications were emitted. */
  datatype State = State(next: int, clock: int, emitted: seq<int>)

  function Start(now: int): State {
    State(now, now, [])
  }

  predicate OnTime(s: State, period: nat, c: Cycle) {
    s.next + period > s.clock + c.idle
  }

  /** The pacing: wait for the next deadline, or make now the deadline if that has passed. */
  function Paced(s: State, period: nat, c: Cycle): State {
    if period == 0 then s.(clock := s.clock + c.idle)
    else if OnTime(s, period, c) then s.(next := s.next + period, clock := s.next + period + c.late)
    else s.(next := s.clock + c.idle, clock := s.clock + c.idle)
  }

  function Step(s: State, period: nat, c: Cycle): State {
    var p := Paced(s, period, c);
    if c.subscribed then p.(clock := p.clock + c.work, emitted := p.emitted + [p.clock + c.work]) else p
  }

  function After(now: int, period: nat, script: seq<Cycle>): State {
    if script == [] then Start(now)
    else Step(After(now, period, script[..|script| - 1]), period, script[|script| - 1])
  }

  /** The worker loop, one cycle per entry of the script, until it is stopped. */
  method WorkerLoop(start: int, period: nat, script: seq<Cycle>) returns (emitted: seq<int>)
    ensures emitted == After(start, period, script).emitted
  {
    var next, clock := start, start;
    emitted := [];
    for i := 0 to |script|
      invariant State(next, clock, emitted) == After(start, period, script[..i])
    {
      assert script[..i + 1][..i] == script[..i];
      var c := script[i];
      clock := clock + c.idle;
      if period > 0 {
        next := next + period;
        if next > clock {
          clock := next + c.late;
        } else {
          next := clock;
        }
      }
      if !c.subscribed {
        continue;
      }
      clock := clock + c.work;
      emitted := emitted + [clock];
    }
    assert script[..|script|] == script;
  }

  // ----------------------------------------------------------------------- spacing

  /** n periods. */
  function Periods(n: nat, period: nat): nat {
    if n == 0 then 0 else period + Periods(n - 1, period)
  }

  lemma {:induction false} PeriodsIsProduct(n: nat, period: nat)
    ensures Periods(n, period) == n * period
  {
    if n > 0 {
      PeriodsIsProduct(n - 1, period);
      assert n * period == (n - 1) * period + period;
    }
  }

  /** Emissions i < j are at least j - i - 1 periods apart. */
  ghost predicate Spaced(emitted: seq<int>, period: nat) {
    forall i, j :: 0 <= i < j < |emitted| ==> emitted[j] >= emitted[i] + Periods(j - i - 1, period)
  }

  /** The deadline is as far ahead of every emission but the last as one more emission needs. */
  ghost predicate Ahead(s: State, period: nat) {
    forall i :: 0 <= i < |s.emitted| - 1 ==> s.next >= s.emitted[i] + Periods(|s.emitted| - i - 2, period)
  }

  ghost predicate Past(s: State) {
    forall i :: 0 <= i < |s.emitted| ==> s.clock >= s.emitted[i]
  }

  ghost predicate PacedOk(s: State, period: nat) {
    s.clock >= s.next && Past(s) && Ahead(s, period) && Spaced(s.emitted, period)
  }

  /** After the pacing, the deadline is a full period further from every emission. */
  lemma DeadlineMoves(s: State, period: nat, c: Cycle, i: nat)
    requires period > 0 && PacedOk(s, period) && i < |s.emitted|
    ensures Paced(s, period, c).next >= s.emitted[i] + Periods(|s.emitted| - i - 1, period)
  {
    if i < |s.emitted| - 1 {
      assert Periods(|s.emitted| - i - 1, period) == period + Periods(|s.emitted| - i - 2, period);
    }
  }

  lemma StepKeepsPacing(s: State, period: nat, c: Cycle)
    requires period > 0 && PacedOk(s, period)
    ensures PacedOk(Step(s, period, c), period)
  {
    var s', n := Step(s, period, c), |s.emitted|;
    forall i: nat | i < n ensures Paced(s, period, c).next >= s.emitted[i] + Periods(n - i - 1, period) {
      DeadlineMoves(s, period, c, i);
    }
  }

  lemma {:induction false} RunIsPaced(start: int, period: nat, script: seq<Cycle>)
    requires period > 0
    ensures PacedOk(After(start, period, script), period)
  {
    if script != [] {
      RunIsPaced(start, period, script[..|script| - 1]);
      StepKeepsPacing(After(start, period, script[..|script| - 1]), period, script[|script| - 1]);
    }
  }

  /** However late the wake-ups, long the stalls and many the skipped cycles: emissions i < j are
      at least j - i - 1 periods apart. */
  lemma EmissionsAreSpaced(start: int, period: nat, script: seq<Cycle>, i: nat, j: nat)
    requires period > 0 && i < j < |After(start, period, script).emitted|
    ensures var e := After(start, period, script).emitted; e[j] - e[i] >= (j - i - 1) * period
  {
    RunIsPaced(start, period, script);
    var e := After(start, period, script).emitted;
    assert e[j] >= e[i] + Periods(j - i - 1, period);
    PeriodsIsProduct(j - i - 1, period);
  }

  /** How many of the first n emissions lie in the window of length w from `from` on. */
  function InWindow(emitted: seq<int>, from: int, w: nat, n: nat): (count: nat)
    requires n <= |emitted|
    ensures count <= n
  {
    if n == 0 then 0
    else InWindow(emitted, from, w, n - 1) + if from <= emitted[n - 1] <= from + w then 1 else 0
  }

  lemma {:induction false} WindowEnds(emitted: seq<int>, from: int, w: nat, n: nat) returns (i: nat, j: nat)
    requires n <= |emitted| && InWindow(emitted, from, w, n) > 0
    ensures i <= j < n && from <= emitted[i] <= from + w && from <= emitted[j] <= from + w
    ensures InWindow(emitted, from, w, n) <= j - i + 1
  {
    var inside := from <= emitted[n - 1] <= from + w;
    if InWindow(emitted, from, w, n - 1) == 0 {
      i, j := n - 1, n - 1;
    } else {
      i, j := WindowEnds(emitted, from, w, n - 1);
      if inside {
        j := n - 1;
      }
    }
  }

  lemma AtMost(n: nat, w: nat, period: nat)
    requires period > 0 && n * period <= w
    ensures n <= w / period
  {
    if n > w / period {
      MultiplesApart(period, n, w / period);
    }
  }

  lemma SpacedWindow(emitted: seq<int>, period: nat, from: int, w: nat)
    requires period > 0 && Spaced(emitted, period)
    ensures InWindow(emitted, from, w, |emitted|) <= w / period + 2
  {
    if InWindow(emitted, from, w, |emitted|) > 0 {
      var i, j := WindowEnds(emitted, from, w, |emitted|);
      if i < j {
        PeriodsIsProduct(j - i - 1, period);
        AtMost(j - i - 1, w, period);
      }
    }
  }

  /** Any window of length w holds at most floor(w / period) + 2 emissions. */
  lemma WindowsHoldFew(start: int, period: nat, script: seq<Cycle>, from: int, w: nat)
    requires period > 0
    ensures var e := After(start, period, script).emitted; InWindow(e, from, w, |e|) <= w / period + 2
  {
    RunIsPaced(start, period, script);
    SpacedWindow(After(start, period, script).emitted, period, from, w);
  }

  // ----------------------------------------------------------------- the bounds are reached

  /** One wake-up a full period late, then everything on time. */
  function LateOnce(period: nat, n: nat): seq<Cycle> {
    if n == 0 then [Cycle(0, period, true, 0)] else LateOnce(period, n - 1) + [Cycle(0, 0, true, 0)]
  }

  /** What comes of it: two emissions at once, then one each period. */
  ghost predicate TwoAtOnce(s: State, period: nat, n: nat) {
    && |s.emitted| == n + 1 && s.emitted[0] == 2 * period
    && (forall k :: 1 <= k <= n ==> s.emitted[k] == 2 * period + Periods(k - 1, period))
    && s.next == (if n == 0 then period else s.emitted[n]) && s.clock == s.emitted[n]
  }

  lemma StepOnTime(s: State, period: nat)
    requires period > 0 && s.next <= s.clock <= s.next + period
    ensures Step(s, period, Cycle(0, 0, true, 0)) == State(s.next + period, s.next + period, s.emitted + [s.next + period])
  {
  }

  lemma {:induction false} LateOnceRuns(period: nat, n: nat)
    requires period > 0
    ensures TwoAtOnce(After(0, period, LateOnce(period, n)), period, n)
  {
    var script := LateOnce(period, n);
    if n == 0 {
      assert script[..|script| - 1] == [];
    } else {
      LateOnceRuns(period, n - 1);
      assert script[..|script| - 1] == LateOnce(period, n - 1);
      StepOnTime(After(0, period, LateOnce(period, n - 1)), period);
    }
  }

  lemma {:induction false} AllInWindow(emitted: seq<int>, from: int, w: nat, n: nat)
    requires n <= |emitted| && forall k :: 0 <= k < n ==> from <= emitted[k] <= from + w
    ensures InWindow(emitted, from, w, n) == n
  {
    if n > 0 {
      AllInWindow(emitted, from, w, n - 1);
    }
  }

  lemma {:induction false} PeriodsGrow(a: nat, b: nat, period: nat)
    requires a <= b
    ensures Periods(a, period) <= Periods(b, period)
  {
    if a < b {
      PeriodsGrow(a, b - 1, period);
    }
  }

  lemma WholePeriods(n: nat, period: nat)
    requires period > 0
    ensures Periods(n, period) / period == n
  {
    PeriodsIsProduct(n, period);
    AtMost(n, n * period, period);
    if n < n * period / period {
      MultiplesApart(period, n * period / period, n);
    }
  }

  /** A worker that wakes one period late once emits the next indication at the same instant and
      goes on at the full rate: the rate does exceed the configured one for that moment, and both
      bounds are met with equality, for any number of emissions. */
  lemma BoundsAreReached(period: nat, n: nat)
    requires period > 0 && n > 0
    ensures var e, w := After(0, period, LateOnce(period, n)).emitted, Periods(n - 1, period);
            && |e| == n + 1 && e[n] - e[0] == (n - 1) * period
            && InWindow(e, e[0], w, n + 1) == n + 1 == w / period + 2
  {
    LateOnceRuns(period, n);
    PeriodsIsProduct(n - 1, period);
    WholePeriods(n - 1, period);
    var e, w := After(0, period, LateOnce(period, n)).emitted, Periods(n - 1, period);
    forall k | 0 <= k < n + 1 ensures e[0] <= e[k] <= e[0] + w {
      if k > 0 { PeriodsGrow(k - 1, n - 1, period); }
    }
    AllInWindow(e, e[0], w, n + 1);
  }

  // ------------------------------------------------------------------------ no drift

  /** The deadline has not passed at any clock reading. */
  ghost predicate NeverBehind(start: int, period: nat, script: seq<Cycle>) {
    forall i :: 0 <= i < |script| ==> OnTime(After(start, period, script[..i]), period, script[i])
  }

  /** What the compensation is for: as long as the worker is never behind, the n-th deadline is
      exactly n periods after the start, however long the cycles take and however late the
      wake-ups are. */
  lemma {:induction false} NoDrift(start: int, period: nat, script: seq<Cycle>)
    requires period > 0 && NeverBehind(start, period, script)
    ensures After(start, period, script).next == start + Periods(|script|, period)
  {
    if script != [] {
      var n := |script| - 1;
      var before := script[..n];
      forall i | 0 <= i < n ensures OnTime(After(start, period, before[..i]), period, before[i]) {
        assert before[..i] == script[..i];
      }
      NoDrift(start, period, before);
    }
  }

  // -------------------------------------------------------------- consecutive emissions

  function Count(script: seq<Cycle>): nat {
    if script == [] then 0 else Count(script[..|script| - 1]) + if script[|script| - 1].subscribed then 1 else 0
  }

  lemma {:induction false} OneEmissionEach(start: int, period: nat, script: seq<Cycle>)
    ensures |After(start, period, script).emitted| == Count(script)
  {
    if script != [] {
      OneEmissionEach(start, period, script[..|script| - 1]);
    }
  }

  lemma {:induction false} EmissionsStay(start: int, period: nat, script: seq<Cycle>, n: nat)
    requires n <= |script|
    ensures After(start, period, script[..n]).emitted <= After(start, period, script).emitted
    decreases |script|
  {
    if n < |script| {
      EmissionsStay(start, period, script[..|script| - 1], n);
      assert script[..|script| - 1][..n] == script[..n];
    } else {
      assert script[..n] == script;
    }
  }

  /** Emission number `Count(script[..i])` is the one of cycle i, at the end of that cycle. */
  lemma EmissionOf(start: int, period: nat, script: seq<Cycle>, i: nat)
    requires i < |script| && script[i].subscribed
    ensures var e, k := After(start, period, script).emitted, Count(script[..i]);
            k < |e| && e[k] == After(start, period, script[..i + 1]).clock
  {
    assert script[..i + 1][..i] == script[..i];
    OneEmissionEach(start, period, script[..i]);
    EmissionsStay(start, period, script, i + 1);
  }

  /** The cycle an emission comes from. */
  lemma {:induction false} Emitter(script: seq<Cycle>, k: nat) returns (i: nat)
    requires k < Count(script)
    ensures i < |script| && script[i].subscribed && Count(script[..i]) == k
  {
    var n := |script| - 1;
    i := n;
    if k < Count(script[..n]) {
      i := Emitter(script[..n], k);
      assert script[..n][..i] == script[..i];
    }
  }

  /** Nobody was subscribed between cycles i and j. */
  ghost predicate Consecutive(script: seq<Cycle>, i: nat, j: nat) {
    && i < j < |script| && script[i].subscribed && script[j].subscribed
    && forall k :: i < k < j ==> !script[k].subscribed
  }

  /** How late a cycle ended against its deadline. */
  ghost function Lateness(start: int, period: nat, script: seq<Cycle>, i: nat): int
    requires i < |script|
  {
    var s := After(start, period, script[..i + 1]);
    s.clock - s.next
  }

  /** The next cycle emits no less late than this one; or, behind schedule, it took a whole period
      of its own. */
  ghost predicate NoHurry(start: int, period: nat, script: seq<Cycle>, i: nat)
    requires i + 1 < |script|
  {
    var c := script[i + 1];
    if OnTime(After(start, period, script[..i + 1]), period, c)
    then Lateness(start, period, script, i + 1) >= Lateness(start, period, script, i)
    else c.idle + c.work >= period
  }

  lemma AdjacentGap(start: int, period: nat, script: seq<Cycle>, i: nat)
    requires period > 0 && i + 1 < |script| && script[i + 1].subscribed
    ensures After(start, period, script[..i + 2]).clock - After(start, period, script[..i + 1]).clock >= period
            <==> NoHurry(start, period, script, i)
  {
    assert script[..i + 2][..i + 1] == script[..i + 1];
  }

  lemma {:induction false} DeadlinesAdvance(start: int, period: nat, script: seq<Cycle>, i: nat, j: nat)
    requires period > 0 && i < j <= |script|
    ensures After(start, period, script[..j]).next >= After(start, period, script[..i]).next + period
    ensures After(start, period, script[..j]).next >= After(start, period, script[..i]).clock
    decreases j
  {
    assert script[..j][..j - 1] == script[..j - 1];
    if i < j - 1 {
      DeadlinesAdvance(start, period, script, i, j - 1);
    }
    RunIsPaced(start, period, script[..j - 1]);
  }

  lemma SkippedGap(start: int, period: nat, script: seq<Cycle>, i: nat, j: nat)
    requires period > 0 && i + 1 < j < |script|
    ensures After(start, period, script[..j + 1]).clock - After(start, period, script[..i + 1]).clock >= period
  {
    DeadlinesAdvance(start, period, script, i + 1, i + 2);
    DeadlinesAdvance(start, period, script, i + 2, j + 1);
    RunIsPaced(start, period, script[..j + 1]);
  }

  /** Over every run: emissions k and k + 1 come from consecutive subscribed cycles i and j, and
      they are a full period apart exactly if a cycle was skipped between them, or the second is
      in no hurry. */
  lemma GapExactly(start: int, period: nat, script: seq<Cycle>, k: nat) returns (i: nat, j: nat)
    requires period > 0 && k + 1 < |After(start, period, script).emitted|
    ensures Consecutive(script, i, j) && Count(script[..i]) == k && Count(script[..j]) == k + 1
    ensures var e := After(start, period, script).emitted;
            e[k + 1] - e[k] >= period <==> j > i + 1 || NoHurry(start, period, script, i)
  {
    OneEmissionEach(start, period, script);
    i := Emitter(script, k);
    j := Emitter(script, k + 1);
    NothingBetween(script, i, j);
    EmissionOf(start, period, script, i);
    EmissionOf(start, period, script, j);
    if j > i + 1 {
      SkippedGap(start, period, script, i, j);
    } else {
      AdjacentGap(start, period, script, i);
    }
  }

  lemma {:induction false} CountGrows(script: seq<Cycle>, i: nat, j: nat)
    requires i <= j <= |script|
    ensures Count(script[..i]) <= Count(script[..j])
    ensures i < j && script[i].subscribed ==> Count(script[..i]) < Count(script[..j])
    decreases j
  {
    if i < j {
      assert script[..j][..j - 1] == script[..j - 1];
      CountGrows(script, i, j - 1);
    }
  }

  lemma NothingBetween(script: seq<Cycle>, i: nat, j: nat)
    requires i < |script| && j < |script| && script[i].subscribed && script[j].subscribed
    requires Count(script[..j]) == Count(script[..i]) + 1
    ensures Consecutive(script, i, j)
  {
    if j <= i { CountGrows(script, j, i); }
    forall k | i < k < j ensures !script[k].subscribed {
      CountGrows(script, i, k);
      CountGrows(script, k, j);
    }
  }
}
