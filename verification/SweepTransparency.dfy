/** Does it matter when, or whether, expired subscriptions are swept?  Two managers are given the
    same calls on one clock; one of them is swept as well, at any times. */
module SweepTransparency {
  import opened Options
  import opened SubscriptionSpec
  import opened SubscriptionTheorems

  // ------------------------------------------------------------------- counting ids

  ghost function UpTo(n: nat): set<nat> {
    if n == 0 then {} else UpTo(n - 1) + {n}
  }

  lemma {:induction false} UpToCounts(n: nat)
    ensures |UpTo(n)| == n && forall i :: i in UpTo(n) <==> 1 <= i <= n
  {
    if n > 0 {
      UpToCounts(n - 1);
    }
  }

  lemma {:induction false} SubsetCounts<T>(small: set<T>, large: set<T>)
    requires small <= large
    ensures |small| <= |large| && (|small| == |large| <==> small == large)
    decreases small
  {
    if small != {} {
      var x :| x in small;
      SubsetCounts(small - {x}, large - {x});
      assert small == large <==> small - {x} == large - {x};
    }
  }

  ghost predicate OneIdEach(subs: map<Pair, Entry>) {
    forall p, q :: p in subs && q in subs && subs[p].id == subs[q].id ==> p == q
  }

  lemma {:induction false} IdsCount(subs: map<Pair, Entry>)
    requires OneIdEach(subs)
    ensures |Ids(subs)| == |subs.Keys|
    decreases subs.Keys
  {
    if subs.Keys != {} {
      var p :| p in subs;
      var rest := subs - {p};
      IdsCount(rest);
      assert rest.Keys == subs.Keys - {p};
      IdsWithout(subs, p);
    } else {
      assert Ids(subs) == {};
    }
  }

  lemma IdsWithout(subs: map<Pair, Entry>, p: Pair)
    requires OneIdEach(subs) && p in subs
    ensures Ids(subs) == Ids(subs - {p}) + {subs[p].id} && subs[p].id !in Ids(subs - {p})
  {
    forall id | id in Ids(subs) && id != subs[p].id ensures id in Ids(subs - {p}) {
      var q :| q in subs && subs[q].id == id;
      assert q in subs - {p};
    }
  }

  /** No id is left for a new subscription. */
  ghost predicate Full(a: Spec) {
    LowestFree(Ids(a.subs)) == 0
  }

  lemma AllTaken(taken: set<nat>, n: nat)
    requires forall i :: i in taken ==> 1 <= i <= n
    ensures |taken| <= n && (|taken| == n <==> forall i :: 1 <= i <= n ==> i in taken)
  {
    UpToCounts(n);
    SubsetCounts(taken, UpTo(n));
    assert taken == UpTo(n) <==> forall i :: 1 <= i <= n ==> i in taken;
  }

  lemma FullExactly(a: Spec)
    requires WellFormed(a)
    ensures |a.subs.Keys| <= MAX_ID && (Full(a) <==> |a.subs.Keys| == MAX_ID)
  {
    IdsCount(a.subs);
    AllTaken(Ids(a.subs), MAX_ID);
  }

  // --------------------------------------------------------------------- simulation

  /** The swept relation `y` has what the unswept one has, under ids of its own, except for pairs
      whose time has run out. */
  ghost predicate Alike(x: map<Pair, Entry>, y: map<Pair, Entry>, t: nat) {
    && (forall p :: p in y ==> p in x && x[p].details == y[p].details)
    && (forall p :: p in x && p !in y ==> IsExpired(x[p].details, t))
  }

  ghost predicate Sim(a: Spec, b: Spec, t: nat) {
    WellFormed(a) && WellFormed(b) && a.registered == b.registered && Alike(a.subs, b.subs, t)
  }

  lemma AlikePut(x: map<Pair, Entry>, y: map<Pair, Entry>, t: nat, now: nat, p: Pair, i: nat, j: nat, details: Details)
    requires Alike(x, y, t) && t <= now
    ensures Alike(x[p := Entry(i, details)], y[p := Entry(j, details)], now)
  {
  }

  lemma AlikeDrop(x: map<Pair, Entry>, y: map<Pair, Entry>, t: nat, now: nat, gone: set<Pair>, gone': set<Pair>)
    requires Alike(x, y, t) && t <= now && gone' <= gone && gone * y.Keys <= gone'
    ensures Alike(x - gone, y - gone', now)
  {
  }

  lemma AlikeSweep(x: map<Pair, Entry>, y: map<Pair, Entry>, t: nat, now: nat)
    requires Alike(x, y, t) && t <= now
    ensures Alike(x, y - ExpiredPairs(y, now), now)
  {
  }

  /** Who receives what is the same. */
  lemma SameRecipients(a: Spec, b: Spec, t: nat, r: nat, at: nat)
    requires Sim(a, b, t) && t <= at
    ensures Live(a.subs, r, at) == Live(b.subs, r, at)
  {
    forall d ensures d in Live(a.subs, r, at) <==> d in Live(b.subs, r, at) {
      if d in Live(a.subs, r, at) {
        var p :| p in a.subs && p.1 == r && !IsExpired(a.subs[p].details, at) && p.0 == d;
        assert p in b.subs;
      }
    }
  }

  /** The swept manager is full only if the unswept one is, with the same pairs. */
  lemma SweptHasMoreRoom(a: Spec, b: Spec, t: nat)
    requires Sim(a, b, t) && Full(b)
    ensures Full(a) && a.subs.Keys == b.subs.Keys
  {
    FullExactly(a);
    FullExactly(b);
    SubsetCounts(b.subs.Keys, a.subs.Keys);
  }

  /** The calls, as both managers get them.  A delete by id names, in each manager, the id that
      manager gave to the pair. */
  datatype Shared =
    | Registers
    | Unregisters(dapp: nat)
    | Adds(dapp: nat, ranFunction: nat, details: Details)
    | Removes(dapp: nat, ranFunction: nat)
    | Deletes(dapp: nat, ranFunction: nat)
    | Sweeps

  /** One manager's part in a call at time `now`. */
  ghost predicate Takes(a: Spec, op: Shared, now: nat, a': Spec) {
    match op
    case Registers => Step(a, DoRegister, a')
    case Unregisters(d) => Step(a, DoUnregister(d), a')
    case Adds(d, r, details) => Step(a, DoAdd(d, r, details, now), a')
    case Removes(d, r) => Step(a, DoRemove(d, r), a')
    case Deletes(d, r) => if (d, r) in a.subs then Step(a, DoRemoveById(d, a.subs[(d, r)].id), a') else a' == a
    case Sweeps => Step(a, DoSweep(now), a')
  }

  /** Both managers get the call; only `b` is swept.  What is added runs out later, if ever: its
      deadline is counted from now. */
  ghost predicate BothTake(a: Spec, b: Spec, op: Shared, now: nat, a': Spec, b': Spec) {
    && (if op.Sweeps? then a' == a else Takes(a, op, now, a'))
    && Takes(b, op, now, b')
    && (op.Adds? ==> !IsExpired(op.details, now))
  }

  /** The one exception: a first subscription is refused by the unswept manager, because expired
      subscriptions still hold ids, and not by the swept one. */
  ghost predicate Parts(a: Spec, b: Spec, op: Shared) {
    op.Adds? && op.dapp in a.registered && (op.dapp, op.ranFunction) !in a.subs && Full(a) && !Full(b)
  }

  lemma DeleteIsRemove(a: Spec, d: nat, r: nat)
    requires WellFormed(a) && (d, r) in a.subs
    ensures RemoveById(a, d, a.subs[(d, r)].id) == Remove(a, d, r)
  {
    var id := a.subs[(d, r)].id;
    assert Owns(a, d, r, id);
    forall r' | Owns(a, d, r', id) ensures r' == r {
      assert (d, r') == (d, r);
    }
  }

  lemma TakesKeepsWellFormed(a: Spec, op: Shared, now: nat, a': Spec)
    requires WellFormed(a) && Takes(a, op, now, a')
    ensures WellFormed(a')
  {
    match op
    case Registers => StepKeepsWellFormed(a, DoRegister, a');
    case Unregisters(d) => StepKeepsWellFormed(a, DoUnregister(d), a');
    case Adds(d, r, details) => StepKeepsWellFormed(a, DoAdd(d, r, details, now), a');
    case Removes(d, r) => StepKeepsWellFormed(a, DoRemove(d, r), a');
    case Deletes(d, r) => if (d, r) in a.subs { StepKeepsWellFormed(a, DoRemoveById(d, a.subs[(d, r)].id), a'); }
    case Sweeps => StepKeepsWellFormed(a, DoSweep(now), a');
  }

  lemma AddKeepsAlike(a: Spec, b: Spec, t: nat, d: nat, r: nat, details: Details, now: nat)
    requires Alike(a.subs, b.subs, t) && t <= now && a.registered == b.registered
    requires d in a.registered && (d, r) !in b.subs ==> !Full(b)
    requires d in a.registered && (d, r) !in a.subs ==> !Full(a)
    ensures Alike(Add(a, d, r, details, now).after.subs, Add(b, d, r, details, now).after.subs, now)
  {
    var p := (d, r);
    var i := if p in a.subs then a.subs[p].id else LowestFree(Ids(a.subs));
    var j := if p in b.subs then b.subs[p].id else LowestFree(Ids(b.subs));
    AlikePut(a.subs, b.subs, t, now, p, i, j, details);
  }

  lemma AddKeepsSim(a: Spec, b: Spec, t: nat, op: Shared, now: nat)
    requires Sim(a, b, t) && t <= now && op.Adds? && !Parts(a, b, op)
    ensures var a' := Add(a, op.dapp, op.ranFunction, op.details, now).after;
            var b' := Add(b, op.dapp, op.ranFunction, op.details, now).after;
            a'.registered == b'.registered && Alike(a'.subs, b'.subs, now)
  {
    if Full(b) { SweptHasMoreRoom(a, b, t); }
    if op.dapp in a.registered && (op.dapp, op.ranFunction) !in a.subs && Full(a) {
      assert Full(b);
    } else {
      AddKeepsAlike(a, b, t, op.dapp, op.ranFunction, op.details, now);
    }
  }

  lemma RemoveKeepsAlike(a: Spec, b: Spec, t: nat, d: nat, r: nat, now: nat)
    requires Alike(a.subs, b.subs, t) && t <= now
    ensures Alike(Remove(a, d, r).after.subs, Remove(b, d, r).after.subs, now)
  {
    AlikeDrop(a.subs, b.subs, t, now, {(d, r)}, {(d, r)});
    assert (d, r) !in a.subs ==> a.subs - {(d, r)} == a.subs;
    assert (d, r) !in b.subs ==> b.subs - {(d, r)} == b.subs;
  }

  lemma RegisterKeepsAlike(a: Spec, b: Spec, t: nat, now: nat)
    requires Alike(a.subs, b.subs, t) && t <= now && a.registered == b.registered
    ensures Register(a).after.registered == Register(b).after.registered
    ensures Alike(Register(a).after.subs, Register(b).after.subs, now)
  {
  }

  lemma SweepKeepsAlike(a: Spec, b: Spec, t: nat, now: nat, b': Spec)
    requires Alike(a.subs, b.subs, t) && t <= now && a.registered == b.registered && Sweep(b, now, b')
    ensures a.registered == b'.registered && Alike(a.subs, b'.subs, now)
  {
    AlikeSweep(a.subs, b.subs, t, now);
  }

  lemma UnregisterKeepsAlike(a: Spec, b: Spec, t: nat, d: nat, now: nat, a': Spec, b': Spec)
    requires Alike(a.subs, b.subs, t) && t <= now && a.registered == b.registered
    requires Step(a, DoUnregister(d), a') && Step(b, DoUnregister(d), b')
    ensures a'.registered == b'.registered && Alike(a'.subs, b'.subs, now)
  {
    AlikeDrop(a.subs, b.subs, t, now, {}, {});
    AlikeDrop(a.subs, b.subs, t, now, PairsOf(a.subs, d), PairsOf(b.subs, d));
  }

  lemma DeleteKeepsAlike(a: Spec, b: Spec, t: nat, op: Shared, now: nat, a': Spec, b': Spec)
    requires Sim(a, b, t) && t <= now && op.Deletes? && Takes(a, op, now, a') && Takes(b, op, now, b')
    ensures a'.registered == b'.registered && Alike(a'.subs, b'.subs, now)
  {
    if (op.dapp, op.ranFunction) in a.subs { DeleteIsRemove(a, op.dapp, op.ranFunction); }
    if (op.dapp, op.ranFunction) in b.subs { DeleteIsRemove(b, op.dapp, op.ranFunction); }
    RemoveKeepsAlike(a, b, t, op.dapp, op.ranFunction, now);
  }

  lemma StepKeepsAlike(a: Spec, b: Spec, t: nat, op: Shared, now: nat, a': Spec, b': Spec)
    requires Sim(a, b, t) && t <= now && BothTake(a, b, op, now, a', b') && !Parts(a, b, op)
    ensures a'.registered == b'.registered && Alike(a'.subs, b'.subs, now)
  {
    match op
    case Registers => RegisterKeepsAlike(a, b, t, now);
    case Unregisters(d) => UnregisterKeepsAlike(a, b, t, d, now, a', b');
    case Adds(_, _, _) => AddKeepsSim(a, b, t, op, now);
    case Removes(d, r) => RemoveKeepsAlike(a, b, t, d, r, now);
    case Deletes(_, _) => DeleteKeepsAlike(a, b, t, op, now, a', b');
    case Sweeps => SweepKeepsAlike(a, b, t, now, b');
  }

  /** Every call keeps the two managers alike, the exception apart. */
  lemma StepKeepsSim(a: Spec, b: Spec, t: nat, op: Shared, now: nat, a': Spec, b': Spec)
    requires Sim(a, b, t) && t <= now && BothTake(a, b, op, now, a', b') && !Parts(a, b, op)
    ensures Sim(a', b', now)
  {
    StepKeepsAlike(a, b, t, op, now, a', b');
    if !op.Sweeps? { TakesKeepsWellFormed(a, op, now, a'); }
    TakesKeepsWellFormed(b, op, now, b');
  }

  /** In the exception the recipients do part: the swept manager serves a dApp the other refused. */
  lemma PartsShows(a: Spec, b: Spec, t: nat, op: Shared, now: nat, a': Spec, b': Spec)
    requires Sim(a, b, t) && t <= now && BothTake(a, b, op, now, a', b') && Parts(a, b, op)
    ensures op.dapp in Live(b'.subs, op.ranFunction, now) && op.dapp !in Live(a'.subs, op.ranFunction, now)
  {
    var p := (op.dapp, op.ranFunction);
    assert p !in b.subs && b'.subs[p].details == op.details;
    assert p in b'.subs && p.1 == op.ranFunction && !IsExpired(b'.subs[p].details, now);
  }

  // --------------------------------------------------------------------------- runs

  ghost predicate IsTwinRun(plain: seq<Spec>, swept: seq<Spec>, ops: seq<Shared>, times: seq<nat>) {
    && |plain| == |swept| == |ops| + 1 == |times| + 1
    && plain[0] == swept[0] && WellFormed(plain[0])
    && (forall i, j :: 0 <= i <= j < |times| ==> times[i] <= times[j])
    && (forall i :: 0 <= i < |ops| ==> StepAt(plain, swept, ops, times, i))
  }

  ghost predicate StepAt(plain: seq<Spec>, swept: seq<Spec>, ops: seq<Shared>, times: seq<nat>, i: int)
    requires |plain| == |swept| == |ops| + 1 == |times| + 1 && 0 <= i < |ops|
  {
    BothTake(plain[i], swept[i], ops[i], times[i], plain[i + 1], swept[i + 1])
  }

  ghost predicate PartsAt(plain: seq<Spec>, swept: seq<Spec>, ops: seq<Shared>, i: int)
    requires |plain| == |swept| == |ops| + 1 && 0 <= i < |ops|
  {
    Parts(plain[i], swept[i], ops[i])
  }

  ghost predicate NeverParts(plain: seq<Spec>, swept: seq<Spec>, ops: seq<Shared>, n: nat)
    requires n <= |ops| && |plain| == |swept| == |ops| + 1
  {
    forall i :: 0 <= i < n ==> !PartsAt(plain, swept, ops, i)
  }

  ghost function Clock(times: seq<nat>, i: nat): nat
    requires i <= |times|
  {
    if i == 0 then 0 else times[i - 1]
  }

  lemma {:induction false} TwinsAgree(plain: seq<Spec>, swept: seq<Spec>, ops: seq<Shared>, times: seq<nat>, i: nat)
    requires IsTwinRun(plain, swept, ops, times) && i <= |ops| && NeverParts(plain, swept, ops, i)
    ensures Sim(plain[i], swept[i], Clock(times, i))
    decreases i
  {
    if i > 0 {
      TwinsAgree(plain, swept, ops, times, i - 1);
      TwinStep(plain, swept, ops, times, i - 1);
    }
  }

  lemma TwinStep(plain: seq<Spec>, swept: seq<Spec>, ops: seq<Shared>, times: seq<nat>, i: nat)
    requires IsTwinRun(plain, swept, ops, times) && i < |ops| && !PartsAt(plain, swept, ops, i)
    requires Sim(plain[i], swept[i], Clock(times, i))
    ensures Sim(plain[i + 1], swept[i + 1], Clock(times, i + 1))
  {
    assert StepAt(plain, swept, ops, times, i);
    StepKeepsSim(plain[i], swept[i], Clock(times, i), ops[i], times[i], plain[i + 1], swept[i + 1]);
  }

  ghost predicate SameLive(a: Spec, b: Spec, at: nat) {
    forall r :: Live(a.subs, r, at) == Live(b.subs, r, at)
  }

  /** Over every run of calls with sweeps of one of the managers in between: whoever asks, now or
      later, finds the same recipients in both. */
  lemma SweepsAreTransparent(plain: seq<Spec>, swept: seq<Spec>, ops: seq<Shared>, times: seq<nat>, i: nat, r: nat, at: nat)
    requires IsTwinRun(plain, swept, ops, times) && i <= |ops| && NeverParts(plain, swept, ops, i)
    requires Clock(times, i) <= at
    ensures Live(plain[i].subs, r, at) == Live(swept[i].subs, r, at)
  {
    TwinsAgree(plain, swept, ops, times, i);
    SameRecipients(plain[i], swept[i], Clock(times, i), r, at);
  }

  /** And they find different ones for the first time exactly when the exception occurs: an add
      refused by the unswept manager for want of ids that the swept one still has. */
  lemma TransparentExactly(plain: seq<Spec>, swept: seq<Spec>, ops: seq<Shared>, times: seq<nat>, n: nat)
    requires IsTwinRun(plain, swept, ops, times) && n <= |ops|
    ensures (forall i :: 0 <= i <= n ==> SameLive(plain[i], swept[i], Clock(times, i)))
            <==> NeverParts(plain, swept, ops, n)
  {
    if NeverParts(plain, swept, ops, n) {
      forall i, r | 0 <= i <= n ensures Live(plain[i].subs, r, Clock(times, i)) == Live(swept[i].subs, r, Clock(times, i)) {
        SweepsAreTransparent(plain, swept, ops, times, i, r, Clock(times, i));
      }
    } else {
      var i := FirstParting(plain, swept, ops, n);
      TwinsAgree(plain, swept, ops, times, i);
      assert StepAt(plain, swept, ops, times, i) && PartsAt(plain, swept, ops, i);
      PartsShows(plain[i], swept[i], Clock(times, i), ops[i], times[i], plain[i + 1], swept[i + 1]);
      assert !SameLive(plain[i + 1], swept[i + 1], Clock(times, i + 1));
    }
  }

  lemma {:induction false} FirstParting(plain: seq<Spec>, swept: seq<Spec>, ops: seq<Shared>, n: nat) returns (i: nat)
    requires n <= |ops| && |plain| == |swept| == |ops| + 1 && !NeverParts(plain, swept, ops, n)
    ensures i < n && PartsAt(plain, swept, ops, i) && NeverParts(plain, swept, ops, i)
  {
    i := n - 1;
    if !NeverParts(plain, swept, ops, n - 1) {
      i := FirstParting(plain, swept, ops, n - 1);
    }
  }

  // ---------------------------------------------------------------------- the exception

  /** Seen from the unswept manager alone: a sweep just before an add changes its outcome exactly
      when the add is a first subscription of a registered dApp, all 65535 ids are in use, and
      some of them belong to subscriptions that have run out. */
  lemma SweepingFirstMatters(a: Spec, now: nat, b: Spec, op: Shared)
    requires WellFormed(a) && Sweep(a, now, b) && op.Adds?
    ensures Parts(a, b, op) <==>
              && op.dapp in a.registered && (op.dapp, op.ranFunction) !in a.subs
              && |a.subs.Keys| == MAX_ID && ExpiredPairs(a.subs, now) != {}
  {
    StepKeepsWellFormed(a, DoSweep(now), b);
    FullExactly(a);
    FullExactly(b);
    assert b.subs.Keys == a.subs.Keys - ExpiredPairs(a.subs, now);
    SubsetCounts(b.subs.Keys, a.subs.Keys);
  }

  const BRIEF: Details := Details([], [], 0, 1, Some(SECOND))

  /** dApp 1 after subscribing, for one second, to the first n functions. */
  ghost function Filled(n: nat): Spec {
    if n == 0 then EMPTY.(registered := {1}) else Add(Filled(n - 1), 1, n - 1, BRIEF, 0).after
  }

  lemma AddCounts(a: Spec, d: nat, r: nat, details: Details, now: nat)
    requires WellFormed(a) && d in a.registered && (d, r) !in a.subs && |a.subs.Keys| < MAX_ID
    ensures var a' := Add(a, d, r, details, now).after;
            && WellFormed(a') && a'.registered == a.registered && |a'.subs.Keys| == |a.subs.Keys| + 1
            && a'.subs == a.subs[(d, r) := Entry(LowestFree(Ids(a.subs)), details)]
  {
    FullExactly(a);
    AddKeepsWellFormed(a, d, r, details, now);
    var a' := Add(a, d, r, details, now).after;
    assert a'.subs.Keys == a.subs.Keys + {(d, r)};
  }

  /** dApp 1 holds n one-second subscriptions, to functions below n. */
  ghost predicate HoldsBrief(a: Spec, n: nat) {
    && WellFormed(a) && a.registered == {1} && |a.subs.Keys| == n
    && forall p :: p in a.subs ==> p.1 < n && a.subs[p].details == BRIEF
  }

  lemma OneMoreBrief(a: Spec, n: nat)
    requires n < MAX_ID && HoldsBrief(a, n)
    ensures HoldsBrief(Add(a, 1, n, BRIEF, 0).after, n + 1)
  {
    AddCounts(a, 1, n, BRIEF, 0);
  }

  lemma {:induction false} FilledHolds(n: nat)
    requires n <= MAX_ID
    ensures HoldsBrief(Filled(n), n)
  {
    if n > 0 {
      FilledHolds(n - 1);
      OneMoreBrief(Filled(n - 1), n - 1);
    }
  }

  /** The exception is real: after 65535 one-second subscriptions, an add a second later is
      refused by the unswept manager and granted by the swept one. */
  lemma ExceptionHappens(n: nat, b: Spec)
    requires n == MAX_ID && Sweep(Filled(n), SECOND, b)
    ensures Parts(Filled(n), b, Adds(1, n, BRIEF.(expires := None)))
  {
    var a := Filled(n);
    FilledHolds(n);
    SweepingFirstMatters(a, SECOND, b, Adds(1, n, BRIEF.(expires := None)));
    var p :| p in a.subs;
    assert p in ExpiredPairs(a.subs, SECOND);
  }
}
