/** What holds of the relation and of the callbacks through every run. */
module SubscriptionTheorems {
  import opened Options
  import opened SubscriptionSpec

  // --------------------------------------------------------------- the relation

  /** One injective relation over registered dApps, all ids in 1..65535. */
  ghost predicate WellFormed(a: Spec) {
    && (forall d :: d in a.registered ==> MIN_ID <= d <= MAX_ID)
    && (forall p :: p in a.subs ==> p.0 in a.registered && MIN_ID <= a.subs[p].id <= MAX_ID)
    && (forall p, q :: p in a.subs && q in a.subs && a.subs[p].id == a.subs[q].id ==> p == q)
  }

  ghost predicate InUse(subs: map<Pair, Entry>, id: nat) {
    exists p :: p in subs && subs[p].id == id
  }

  lemma IdsAreInUse(subs: map<Pair, Entry>)
    ensures forall i: nat :: i in Ids(subs) <==> InUse(subs, i)
  {
  }

  /** A fresh subscription gets the lowest id that is not live, and is refused for want of ids
      exactly when all 65535 are live. */
  lemma AllocationIsExact(a: Spec, d: nat, r: nat, details: Details, now: nat)
    requires d in a.registered && (d, r) !in a.subs
    ensures var o := Add(a, d, r, details, now);
            && (o.code == InternalError <==> forall i: nat :: MIN_ID <= i <= MAX_ID ==> InUse(a.subs, i))
            && (o.code != InternalError ==>
                  && o.code == Success && MIN_ID <= o.id <= MAX_ID
                  && o.after.subs == a.subs[(d, r) := Entry(o.id, details)]
                  && !InUse(a.subs, o.id)
                  && forall i: nat :: MIN_ID <= i < o.id ==> InUse(a.subs, i))
  {
    IdsAreInUse(a.subs);
  }

  lemma PutKeepsWellFormed(a: Spec, p: Pair, e: Entry, events: seq<Event>)
    requires WellFormed(a) && p.0 in a.registered && MIN_ID <= e.id <= MAX_ID
    requires forall q :: q in a.subs && q != p ==> a.subs[q].id != e.id
    ensures WellFormed(a.(subs := a.subs[p := e], events := events))
  {
  }

  lemma AddKeepsWellFormed(a: Spec, d: nat, r: nat, details: Details, now: nat)
    requires WellFormed(a)
    ensures WellFormed(Add(a, d, r, details, now).after)
  {
    var o := Add(a, d, r, details, now);
    if o.code == Success {
      if (d, r) !in a.subs {
        AllocationIsExact(a, d, r, details, now);
        assert forall q :: q in a.subs ==> InUse(a.subs, a.subs[q].id);
      }
      PutKeepsWellFormed(a, (d, r), Entry(o.id, details), o.after.events);
    }
  }

  lemma StepKeepsWellFormed(a: Spec, op: Op, a': Spec)
    requires WellFormed(a) && Step(a, op, a')
    ensures WellFormed(a')
  {
    if op.DoAdd? {
      AddKeepsWellFormed(a, op.dapp, op.ranFunction, op.details, op.now);
    }
  }

  // ------------------------------------------------------------- lifecycle callbacks

  /** The start (true) and stop (false) callbacks of one RAN function, in order. */
  function History(events: seq<Event>, r: nat): seq<bool> {
    if events == [] then []
    else
      var e := events[|events| - 1];
      History(events[..|events| - 1], r) + (if e.ranFunction == r then [e.start] else [])
  }

  /** start, stop, start, ... */
  ghost predicate Alternates(h: seq<bool>) {
    forall i :: 0 <= i < |h| ==> (h[i] <==> i % 2 == 0)
  }

  ghost predicate Started(h: seq<bool>) {
    h != [] && h[|h| - 1]
  }

  ghost predicate LifecycleOf(a: Spec, r: nat) {
    && Alternates(History(a.events, r))
    && (Started(History(a.events, r)) <==> Subscribers(a.subs, r) != {})
  }

  lemma {:induction false} HistoryConcat(xs: seq<Event>, ys: seq<Event>, r: nat)
    ensures History(xs + ys, r) == History(xs, r) + History(ys, r)
    decreases |ys|
  {
    if ys == [] {
      assert xs + ys == xs;
    } else {
      var n := |ys| - 1;
      assert (xs + ys)[..|xs + ys| - 1] == xs + ys[..n];
      HistoryConcat(xs, ys[..n], r);
    }
  }

  /** Stops of distinct functions contribute one stop to each of them and none to others. */
  lemma {:induction false} HistoryOfStops(events: seq<Event>, emptied: set<nat>, r: nat)
    requires forall i :: 0 <= i < |events| ==> !events[i].start && events[i].ranFunction in emptied
    requires forall i, j :: 0 <= i < j < |events| ==> events[i].ranFunction != events[j].ranFunction
    ensures History(events, r) == if Event(r, false) in events then [false] else []
    decreases |events|
  {
    if events != [] {
      var n := |events| - 1;
      HistoryOfStops(events[..n], emptied, r);
      assert events == events[..n] + [events[n]];
    }
  }

  lemma {:induction false} AlternatesExtends(h: seq<bool>, next: bool)
    requires Alternates(h) && Started(h) == !next
    ensures Alternates(h + [next]) && Started(h + [next]) == next
  {
    if h != [] {
      assert h[|h| - 1] <==> (|h| - 1) % 2 == 0;
    }
  }

  lemma StillSubscribed(subs: map<Pair, Entry>, gone: set<Pair>, p: Pair)
    requires p in subs && p !in gone
    ensures p.0 in Subscribers(subs - gone, p.1)
  {
    assert p in subs - gone;
  }

  lemma SubscribersAfter(subs: map<Pair, Entry>, gone: set<Pair>, r: nat)
    ensures Subscribers(subs - gone, r) <= Subscribers(subs, r)
    ensures r in Emptied(subs, gone) <==> Subscribers(subs, r) != {} && Subscribers(subs - gone, r) == {}
  {
    if r in Emptied(subs, gone) {
      var p :| p in gone && p in subs && Subscribers(subs - gone, p.1) == {} && p.1 == r;
      assert p.0 in Subscribers(subs, r);
    }
    if Subscribers(subs, r) != {} && Subscribers(subs - gone, r) == {} {
      var d :| d in Subscribers(subs, r);
      var p :| p in subs && p.1 == r && p.0 == d;
      assert p in gone by {
        if p !in gone { StillSubscribed(subs, gone, p); }
      }
    }
  }

  lemma DropKeepsLifecycle(a: Spec, gone: set<Pair>, a': Spec, r: nat)
    requires LifecycleOf(a, r) && Dropped(a, gone, a')
    ensures LifecycleOf(a', r)
  {
    var stops := a'.events[|a.events|..];
    assert a'.events == a.events + stops;
    HistoryConcat(a.events, stops, r);
    HistoryOfStops(stops, Emptied(a.subs, gone), r);
    SubscribersAfter(a.subs, gone, r);
    if r in Emptied(a.subs, gone) {
      AlternatesExtends(History(a.events, r), false);
    } else {
      assert History(a'.events, r) == History(a.events, r);
    }
  }

  lemma RemoveIsDrop(a: Spec, d: nat, r: nat)
    requires (d, r) in a.subs
    ensures Dropped(a, {(d, r)}, Remove(a, d, r).after)
  {
    var subs := a.subs - {(d, r)};
    var stops := if Subscribers(subs, r) == {} then [Event(r, false)] else [];
    assert Emptied(a.subs, {(d, r)}) == if Subscribers(subs, r) == {} then {r} else {};
    assert (a.events + stops)[|a.events|..] == stops;
  }

  lemma SubscribersGrow(subs: map<Pair, Entry>, d: nat, f: nat, e: Entry, r: nat)
    ensures Subscribers(subs[(d, f) := e], r) == Subscribers(subs, r) + if r == f then {d} else {}
  {
    assert forall p :: p in subs[(d, f) := e] <==> p in subs || p == (d, f);
    if r == f {
      assert (d, f) in subs[(d, f) := e];
    }
  }

  lemma AddKeepsLifecycle(a: Spec, d: nat, f: nat, details: Details, now: nat, r: nat)
    requires LifecycleOf(a, r)
    ensures LifecycleOf(Add(a, d, f, details, now).after, r)
  {
    var a' := Add(a, d, f, details, now).after;
    if a' != a {
      SubscribersGrow(a.subs, d, f, a'.subs[(d, f)], r);
      var starts := a'.events[|a.events|..];
      assert a'.events == a.events + starts;
      HistoryConcat(a.events, starts, r);
      if (d, f) in a.subs {
        assert d in Subscribers(a.subs, f);
      } else if starts != [] && r == f {
        assert starts == [Event(f, true)] && History(starts, r) == [true];
        AlternatesExtends(History(a.events, r), true);
      }
    }
  }

  lemma RemoveKeepsLifecycle(a: Spec, d: nat, f: nat, r: nat)
    requires LifecycleOf(a, r)
    ensures LifecycleOf(Remove(a, d, f).after, r)
  {
    if (d, f) in a.subs {
      RemoveIsDrop(a, d, f);
      DropKeepsLifecycle(a, {(d, f)}, Remove(a, d, f).after, r);
    }
  }

  lemma StepKeepsLifecycle(a: Spec, op: Op, a': Spec, r: nat)
    requires LifecycleOf(a, r) && Step(a, op, a')
    ensures LifecycleOf(a', r)
  {
    match op
    case DoRegister =>
    case DoUnregister(d) =>
      if d in a.registered { DropKeepsLifecycle(a, PairsOf(a.subs, d), a', r); }
    case DoAdd(d, f, details, now) => AddKeepsLifecycle(a, d, f, details, now, r);
    case DoRemove(d, f) => RemoveKeepsLifecycle(a, d, f, r);
    case DoRemoveById(d, id) =>
      if f :| Owns(a, d, f, id) && a' == Remove(a, d, f).after { RemoveKeepsLifecycle(a, d, f, r); }
    case DoSweep(at) => DropKeepsLifecycle(a, ExpiredPairs(a.subs, at), a', r);
  }

  // ------------------------------------------------------------------------ over runs

  lemma {:induction false} RunInvariant(states: seq<Spec>, ops: seq<Op>, i: nat, r: nat)
    requires IsRun(states, ops) && i < |states|
    ensures WellFormed(states[i]) && LifecycleOf(states[i], r)
    decreases i
  {
    if i > 0 {
      RunInvariant(states, ops, i - 1, r);
      StepKeepsWellFormed(states[i - 1], ops[i - 1], states[i]);
      StepKeepsLifecycle(states[i - 1], ops[i - 1], states[i], r);
    }
  }

  /** Through every run the relation stays injective, within registered dApps and within the id
      range. */
  lemma RelationStaysInjective(states: seq<Spec>, ops: seq<Op>, i: nat)
    requires IsRun(states, ops) && i < |states|
    ensures WellFormed(states[i])
  {
    RunInvariant(states, ops, i, 0);
  }

  /** Through every run the callbacks of each RAN function strictly alternate start, stop,
      start, ..., and the last one is a start exactly while the function has a subscriber. */
  lemma CallbacksAlternate(states: seq<Spec>, ops: seq<Op>, i: nat, r: nat)
    requires IsRun(states, ops) && i < |states|
    ensures Alternates(History(states[i].events, r))
    ensures Started(History(states[i].events, r)) <==> Subscribers(states[i].subs, r) != {}
  {
    RunInvariant(states, ops, i, r);
  }

  /** Renewing an expired subscription in place, and repeating a live one, call nobody back and
      keep the id; only the renewal changes the deadline. */
  lemma RepeatsAreSilent(a: Spec, d: nat, r: nat, details: Details, now: nat)
    requires d in a.registered && (d, r) in a.subs
    ensures var o := Add(a, d, r, details, now);
            && o.after.events == a.events && o.id == a.subs[(d, r)].id
            && o.after.subs.Keys == a.subs.Keys
            && (forall p :: p in a.subs && p != (d, r) ==> o.after.subs[p] == a.subs[p])
            && o.after.subs[(d, r)].details ==
                 if IsExpired(a.subs[(d, r)].details, now) then details else a.subs[(d, r)].details
  {
  }

  // ---------------------------------------------------------------------------- sweeps

  /** A sweep removes exactly the expired pairs and nobody who should still be served: at any
      later time the recipients are the same with or without it. */
  lemma SweepIsTransparent(a: Spec, at: nat, a': Spec, r: nat, t: nat)
    requires Sweep(a, at, a') && at <= t
    ensures Live(a'.subs, r, t) == Live(a.subs, r, t)
    ensures forall p :: p in a'.subs <==> p in a.subs && !IsExpired(a.subs[p].details, at)
  {
    forall d ensures d in Live(a'.subs, r, t) <==> d in Live(a.subs, r, t) {
      if d in Live(a.subs, r, t) {
        var p :| p in a.subs && p.1 == r && !IsExpired(a.subs[p].details, t) && p.0 == d;
        assert p !in ExpiredPairs(a.subs, at) && p in a'.subs;
      }
    }
  }
}
