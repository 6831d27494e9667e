/** What the operations of the subscription manager mean, in terms of deadlines and pairs alone. */
module SubscriptionLaws {
  import opened Options
  import opened SubscriptionSpec
  import opened SubscriptionTheorems

  /** A subscription has ended from its deadline on, and one without a deadline never. */
  predicate EndsAfter(expires: Option<nat>, at: nat) {
    expires.None? || at < expires.value
  }

  // -------------------------------------------------------------------- observations

  lemma SubscribersExactly(subs: map<Pair, Entry>, r: nat, d: nat)
    ensures d in Subscribers(subs, r) <==> (d, r) in subs
  {
    if (d, r) in subs {
      var p := (d, r);
      assert p in subs && p.1 == r;
    }
  }

  /** An indication goes to a dApp exactly if it has a subscription that ends later. */
  lemma LiveExactly(subs: map<Pair, Entry>, r: nat, at: nat, d: nat)
    ensures d in Live(subs, r, at) <==> (d, r) in subs && EndsAfter(subs[(d, r)].details.expires, at)
  {
    if (d, r) in subs && EndsAfter(subs[(d, r)].details.expires, at) {
      var p := (d, r);
      assert p in subs && p.1 == r && !IsExpired(subs[p].details, at);
    }
  }

  // ---------------------------------------------------------------------- operations

  /** A sweep takes exactly the pairs whose deadline has come, and leaves the rest as it is. */
  lemma SweepExactly(a: Spec, at: nat, a': Spec)
    requires Sweep(a, at, a')
    ensures forall p :: p in a'.subs <==> p in a.subs && EndsAfter(a.subs[p].details.expires, at)
    ensures forall p :: p in a'.subs ==> a'.subs[p] == a.subs[p]
    ensures a'.registered == a.registered
  {
  }

  /** Unregistering takes a dApp's registration and its pairs, and nothing of anybody else's. */
  lemma UnregisterExactly(a: Spec, d: nat, a': Spec, code: Code)
    requires Unregister(a, d, a', code)
    ensures code == Success <==> d in a.registered
    ensures code != Success ==> code == DappNotRegistered && a' == a
    ensures a'.registered == a.registered - {d}
    ensures d in a.registered ==> forall p :: p in a'.subs <==> p in a.subs && p.0 != d
    ensures forall p :: p in a'.subs ==> p in a.subs && a'.subs[p] == a.subs[p]
  {
    if d !in a.registered {
      assert a.registered - {d} == a.registered;
    }
  }

  /** Removing takes exactly the pair named, and answers whether it was there. */
  lemma RemoveExactly(a: Spec, d: nat, r: nat, p: Pair)
    ensures var o := Remove(a, d, r);
            && o.code == (if (d, r) in a.subs then Success else SubscriptionNotFound)
            && (p in o.after.subs <==> p in a.subs && p != (d, r))
            && (p in o.after.subs ==> o.after.subs[p] == a.subs[p])
            && o.after.registered == a.registered
  {
  }

  /** What was asked for is what is stored, and a repeat counts as one exactly while the
      subscription it repeats has not ended. */
  lemma AddExactly(a: Spec, d: nat, r: nat, telemetry: seq<nat>, controls: seq<nat>, periodicity: nat, seconds: nat, now: nat)
    ensures var o := Add(a, d, r, NewDetails(telemetry, controls, periodicity, seconds, now), now);
            && (o.code == DappNotRegistered <==> d !in a.registered)
            && (o.code == SubscriptionExists <==>
                  d in a.registered && (d, r) in a.subs && EndsAfter(a.subs[(d, r)].details.expires, now))
            && (o.code == Success ==>
                  && (d, r) in o.after.subs && o.after.subs[(d, r)].id == o.id
                  && var t := o.after.subs[(d, r)].details;
                     && t.telemetry == telemetry && t.controls == controls && t.periodicity == periodicity && t.seconds == seconds
                     && forall at: nat :: EndsAfter(t.expires, at) <==> seconds == 0 || at < now + seconds * SECOND)
  {
  }

  // --------------------------------------------------------------------------- runs

  /** The time an operation happens at, for those that look at the clock. */
  function TimeOf(op: Op): nat {
    match op
    case DoAdd(_, _, _, now) => now
    case DoSweep(at) => at
    case _ => 0
  }

  /** An operation that is not about the pair. */
  predicate Spares(op: Op, d: nat, r: nat) {
    match op
    case DoUnregister(d') => d' != d
    case DoAdd(d', r', _, _) => (d', r') != (d, r)
    case DoRemove(d', r') => (d', r') != (d, r)
    case DoRemoveById(d', _) => d' != d
    case _ => true
  }

  /** The pair is there as it was granted, or it has ended by now. */
  ghost predicate KeptOrEnded(a: Spec, d: nat, r: nat, details: Details, t: nat) {
    if (d, r) in a.subs then a.subs[(d, r)].details == details else !EndsAfter(details.expires, t)
  }

  lemma SparingKeeps(a: Spec, op: Op, a': Spec, d: nat, r: nat, details: Details, t: nat)
    requires Step(a, op, a') && Spares(op, d, r) && TimeOf(op) <= t && KeptOrEnded(a, d, r, details, t)
    requires (d, r) !in a.subs ==> (d, r) !in a'.subs
    ensures KeptOrEnded(a', d, r, details, t)
  {
    match op
    case DoUnregister(_) =>
    case DoSweep(at) => SweepExactly(a, at, a');
    case _ =>
  }

  lemma SparingAddsNothing(a: Spec, op: Op, a': Spec, d: nat, r: nat)
    requires Step(a, op, a') && Spares(op, d, r) && (d, r) !in a.subs
    ensures (d, r) !in a'.subs
  {
  }

  lemma {:induction false} KeptThroughRun(states: seq<Spec>, ops: seq<Op>, i: nat, d: nat, r: nat, details: Details, t: nat)
    requires |states| == |ops| + 1 && i <= |ops|
    requires forall j :: 0 <= j < |ops| ==> Step(states[j], ops[j], states[j + 1])
    requires forall j :: 0 <= j < i ==> Spares(ops[j], d, r) && TimeOf(ops[j]) <= t
    requires KeptOrEnded(states[0], d, r, details, t)
    ensures KeptOrEnded(states[i], d, r, details, t)
    decreases i
  {
    if i > 0 {
      KeptThroughRun(states, ops, i - 1, d, r, details, t);
      if (d, r) !in states[i - 1].subs {
        SparingAddsNothing(states[i - 1], ops[i - 1], states[i], d, r);
      }
      SparingKeeps(states[i - 1], ops[i - 1], states[i], d, r, details, t);
    }
  }

  /** A subscription granted at `now` for `seconds` is served exactly until `now` plus that many
      seconds, or for ever when that is zero, through any operations about other pairs and any
      sweeps. */
  lemma ServedExactlyUntilTheEnd(a: Spec, d: nat, r: nat, telemetry: seq<nat>, controls: seq<nat>, periodicity: nat,
                                 seconds: nat, now: nat, states: seq<Spec>, ops: seq<Op>, i: nat, t: nat)
    requires var o := Add(a, d, r, NewDetails(telemetry, controls, periodicity, seconds, now), now);
             o.code == Success && |states| == |ops| + 1 && states[0] == o.after
    requires forall j :: 0 <= j < |ops| ==> Step(states[j], ops[j], states[j + 1])
    requires i <= |ops| && forall j :: 0 <= j < i ==> Spares(ops[j], d, r) && TimeOf(ops[j]) <= t
    ensures d in Live(states[i].subs, r, t) <==> seconds == 0 || t < now + seconds * SECOND
  {
    var details := NewDetails(telemetry, controls, periodicity, seconds, now);
    AddExactly(a, d, r, telemetry, controls, periodicity, seconds, now);
    KeptThroughRun(states, ops, i, d, r, details, t);
    LiveExactly(states[i].subs, r, t, d);
  }
}
