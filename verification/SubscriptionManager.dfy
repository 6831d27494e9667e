/** The RAN's subscription manager: six mutable indexes, each operation updating them one by
    one, proved to refine the abstract relation.

    A call and the callbacks it causes are one step.  Hash-map iteration order is arbitrary. */
module SubscriptionManagement {
  import opened Options
  import opened SubscriptionSpec
  import opened SubscriptionTheorems
  import opened SubscriptionIndexes

  // --------------------------------------------------- facts the loops rest on

  /** One more removed pair empties at most its own RAN function, and only for the first time. */
  lemma EmptiedStep(subs: map<Pair, Entry>, gone: set<Pair>, p: Pair)
    requires p in subs && p !in gone
    ensures subs - (gone + {p}) == (subs - gone) - {p}
    ensures Emptied(subs, gone + {p}) ==
              Emptied(subs, gone) + if Subscribers((subs - gone) - {p}, p.1) == {} then {p.1} else {}
    ensures p.1 !in Emptied(subs, gone)
  {
    var left := subs - (gone + {p});
    assert left == (subs - gone) - {p};
    StillSubscribed(subs, gone, p);
    SubscribersAfter(subs, gone, p.1);
    SubscribersAfter(subs, gone + {p}, p.1);
    forall r | r != p.1 ensures r in Emptied(subs, gone + {p}) <==> r in Emptied(subs, gone) {
      SubscribersAfter(subs, gone, r);
      SubscribersAfter(subs, gone + {p}, r);
      assert Subscribers(left, r) == Subscribers(subs - gone, r);
    }
  }

  ghost function Elements(rfs: seq<nat>): set<nat> {
    set r | r in rfs
  }

  /** Progress of a removal loop: `gone` has been taken out of `rel`, and `affected` lists the
      functions this emptied. */
  ghost predicate Removing(ix: Indexes, rel: map<Pair, Entry>, gone: set<Pair>, affected: seq<nat>) {
    && Coherent(ix)
    && Relation(ix) == rel - gone
    && Distinct(affected)
    && Elements(affected) == Emptied(rel, gone)
  }

  /** Erasing one more pair keeps the loop going; its function joins the list exactly when the
      erased row was its last. */
  lemma RemovingStep(ix: Indexes, rel: map<Pair, Entry>, gone: set<Pair>, affected: seq<nat>, d: nat, r: nat)
    requires Removing(ix, rel, gone, affected) && Holds(ix, d, r)
    ensures Key(d, r) in ix.subRev && d in GetSet(ix.rfSubs, r) && (d, r) in rel && (d, r) !in gone
    ensures Removing(Erased(ix, d, r), rel, gone + {(d, r)},
                     if GetSet(ix.rfSubs, r) - {d} == {} then affected + [r] else affected)
  {
    assert Linked(ix, d, r);
    PairsHold(ix);
    EraseCoherent(ix, d, r);
    EraseRelation(ix, d, r);
    EmptiedStep(rel, gone, (d, r));
    RfIndexIsSubscribers(Erased(ix, d, r), r);
    assert Elements(affected + [r]) == Elements(affected) + {r};
  }

  /** The stop callbacks for a list of distinct functions. */
  function Stops(rfs: seq<nat>): seq<Event> {
    seq(|rfs|, i requires 0 <= i < |rfs| => Event(rfs[i], false))
  }

  ghost predicate Distinct(rfs: seq<nat>) {
    forall i, j :: 0 <= i < j < |rfs| ==> rfs[i] != rfs[j]
  }

  lemma StopsAreExact(rfs: seq<nat>, emptied: set<nat>)
    requires Distinct(rfs) && Elements(rfs) == emptied
    ensures StopsExactly(Stops(rfs), emptied)
  {
    forall i | 0 <= i < |rfs| ensures rfs[i] in emptied {
      assert rfs[i] in Elements(rfs);
    }
    forall r | r in emptied ensures Event(r, false) in Stops(rfs) {
      var i :| 0 <= i < |rfs| && rfs[i] == r;
      assert Stops(rfs)[i] == Event(r, false);
    }
  }

  /** A dApp with no row left has had all its pairs removed. */
  lemma AllGone(ix: Indexes, rel: map<Pair, Entry>, gone: set<Pair>, d: nat)
    requires Coherent(ix) && Relation(ix) == rel - gone && GetSet(ix.dappSubs, d) == {}
    requires forall p :: p in gone ==> p.0 == d
    ensures rel - gone == rel - PairsOf(rel, d)
    ensures Emptied(rel, gone) == Emptied(rel, PairsOf(rel, d))
  {
    PairsHold(ix);
    forall p | p in rel && p.0 == d ensures p in gone {
      assert p in Relation(ix) ==> Holds(ix, p.0, p.1);
    }
    assert rel - gone == rel - PairsOf(rel, d);
  }

  lemma ErasedSets(ix: Indexes, d: nat, r: nat)
    requires Key(d, r) in ix.subRev
    ensures GetSet(Erased(ix, d, r).dappSubs, d) == GetSet(ix.dappSubs, d) - {r}
    ensures forall e: nat :: e != d ==> GetSet(Erased(ix, d, r).dappSubs, e) == GetSet(ix.dappSubs, e)
  {
  }

  /** Forgetting a dApp whose rows are all gone, from an index by dApp that still lists them. */
  lemma ForgetDapp(ix: Indexes, dappSubs: map<nat, set<nat>>, d: nat)
    requires Coherent(ix) && d in ix.registered && GetSet(ix.dappSubs, d) == {} && dappSubs.Keys == ix.registered
    requires forall e: nat :: e != d ==> GetSet(ix.dappSubs, e) == GetSet(dappSubs, e)
    ensures var ix' := ix.(registered := ix.registered - {d}, dappSubs := dappSubs - {d});
            Coherent(ix') && Relation(ix') == Relation(ix)
  {
    var ix' := ix.(registered := ix.registered - {d}, dappSubs := dappSubs - {d});
    forall e: nat ensures GetSet(ix'.dappSubs, e) == GetSet(ix.dappSubs, e) {
    }
    SameRows(ix, ix');
  }

  // -------------------------------------------------------------------- the manager

  /** Counts up from the smallest id until it meets one nobody has; 0 stands for none. */
  method LowestFreeId(taken: set<nat>) returns (id: nat)
    ensures id == LowestFree(taken)
  {
    id := MIN_ID;
    while id <= MAX_ID
      invariant MIN_ID <= id <= MAX_ID + 1
      invariant LowestFreeFrom(taken, MIN_ID) == LowestFreeFrom(taken, id)
      decreases MAX_ID + 1 - id
    {
      if id !in taken { return; }
      id := id + 1;
    }
    id := 0;
  }

  class SubscriptionManager {
    var registered: set<nat>
    var dappSubs: map<nat, set<nat>>
    var rfSubs: map<nat, set<nat>>
    var subIds: map<nat, Pair>
    var subRev: map<nat, nat>
    var details: map<nat, Details>
    var events: seq<Event>

    ghost function Ix(): Indexes
      reads this
    {
      Indexes(registered, dappSubs, rfSubs, subIds, subRev, details, events)
    }

    ghost predicate Valid()
      reads this
    {
      Coherent(Ix())
    }

    /** The abstract manager this object stands for. */
    ghost function View(): Spec
      reads this
      requires Valid()
    {
      Abs(Ix())
    }

    constructor ()
      ensures Valid() && View() == EMPTY
    {
      registered, dappSubs, rfSubs, subIds, subRev, details, events := {}, map[], map[], map[], map[], map[], [];
      new;
      assert Pairs(Ix()) == {};
    }

    method HasSubscribers(r: nat) returns (b: bool)
      requires Valid()
      ensures b <==> Subscribers(View().subs, r) != {}
    {
      RfIndexIsSubscribers(Ix(), r);
      b := r in rfSubs && rfSubs[r] != {};
    }

    /** Call the Service Model back when the function gained its first or lost its last
        subscriber. */
    method CheckSmLifecycle(r: nat, had: bool)
      requires Valid()
      modifies this`events
      ensures Valid() && View().registered == old(View().registered) && View().subs == old(View().subs)
      ensures var has := Subscribers(View().subs, r) != {};
              events == old(events) + if !had && has then [Event(r, true)] else if had && !has then [Event(r, false)] else []
    {
      var now := HasSubscribers(r);
      ghost var ix := Ix();
      if !had && now {
        events := events + [Event(r, true)];
      } else if had && !now {
        events := events + [Event(r, false)];
      }
      SameRows(ix, Ix());
    }

    // --------------------------------------------------------------- registration

    method RegisterDapp() returns (code: Code, id: nat)
      requires Valid()
      modifies this
      ensures Valid()
      ensures Outcome(View(), code, id) == Register(old(View()))
    {
      id := LowestFreeId(registered);
      if id == 0 {
        return InternalError, 0;
      }
      ghost var ix := Ix();
      registered := registered + {id};
      dappSubs := dappSubs[id := {}];
      code := Success;
      SameRows(ix, Ix());
    }

    /** Take one pair out of the indexes by function, by id and by key; the index by dApp is
        left to the caller. */
    method EraseRow(d: nat, r: nat) returns (emptied: bool)
      requires Key(d, r) in subRev
      modifies this`rfSubs, this`subIds, this`subRev, this`details
      ensures Ix() == Erased(old(Ix()), d, r).(dappSubs := dappSubs)
      ensures emptied <==> old(GetSet(rfSubs, r)) != {} && old(GetSet(rfSubs, r)) - {d} == {}
    {
      var subscribers := GetSet(rfSubs, r);
      rfSubs := rfSubs[r := subscribers - {d}];
      emptied := subscribers != {} && rfSubs[r] == {};
      var k := Key(d, r);
      subIds := subIds - {subRev[k]};
      subRev := subRev - {k};
      details := details - {k};
    }

    /** Every subscription of the dApp goes, then the registration; the functions left without
        subscribers are stopped afterwards. */
    method UnregisterDapp(d: nat) returns (code: Code)
      requires Valid()
      modifies this
      ensures Valid()
      ensures Unregister(old(View()), d, View(), code)
    {
      if d !in registered {
        return DappNotRegistered;
      }
      ghost var a := View();
      var affected := EraseAllOf(d);
      forall i | 0 <= i < |affected| ensures Subscribers(View().subs, affected[i]) == {} {
        assert affected[i] in Elements(affected);
      }
      StopAll(affected);
      StopsAreExact(affected, Emptied(a.subs, PairsOf(a.subs, d)));
      assert events[|a.events|..] == Stops(affected);
      code := Success;
    }

    /** The locked part of `UnregisterDapp`. */
    method EraseAllOf(d: nat) returns (affected: seq<nat>)
      requires Valid() && d in registered
      modifies this`registered, this`dappSubs, this`rfSubs, this`subIds, this`subRev, this`details
      ensures Valid() && registered == old(registered) - {d}
      ensures Removing(Ix(), old(View().subs), PairsOf(old(View().subs), d), affected)
    {
      ghost var rel := View().subs;
      ghost var ix, gone;
      affected, ix, gone := EraseRowsOf(d);
      ForgetDapp(ix, dappSubs, d);
      dappSubs := dappSubs - {d};
      registered := registered - {d};
      AllGone(ix, rel, gone, d);
    }

    /** Its loop.  The index by dApp is untouched while the loop runs; `ix` is what the indexes
        would be if the finished functions had been taken out of it too. */
    method EraseRowsOf(d: nat) returns (affected: seq<nat>, ghost ix: Indexes, ghost gone: set<Pair>)
      requires Valid() && d in registered
      modifies this`rfSubs, this`subIds, this`subRev, this`details
      ensures Ix() == ix.(dappSubs := dappSubs)
      ensures Removing(ix, old(View().subs), gone, affected) && GetSet(ix.dappSubs, d) == {}
      ensures forall e: nat :: e != d ==> GetSet(ix.dappSubs, e) == GetSet(dappSubs, e)
      ensures forall p :: p in gone ==> p.0 == d
    {
      ghost var rel := View().subs;
      ix, gone := Ix(), {};
      affected := [];
      var todo := dappSubs[d];
      while todo != {}
        invariant Ix() == ix.(dappSubs := dappSubs)
        invariant Removing(ix, rel, gone, affected) && GetSet(ix.dappSubs, d) == todo
        invariant forall e: nat :: e != d ==> GetSet(ix.dappSubs, e) == GetSet(dappSubs, e)
        invariant forall p :: p in gone ==> p.0 == d
        decreases todo
      {
        var r :| r in todo;
        assert Holds(ix, d, r) && Linked(ix, d, r);
        var emptied := EraseRow(d, r);
        assert Ix() == Erased(ix, d, r).(dappSubs := dappSubs);
        ErasedSets(ix, d, r);
        RemovingStep(ix, rel, gone, affected, d, r);
        if emptied {
          affected := affected + [r];
        }
        todo := todo - {r};
        gone := gone + {(d, r)};
        ix := Erased(ix, d, r);
      }
    }

    /** Stop callbacks for functions that have no subscriber left. */
    method StopAll(rfs: seq<nat>)
      requires Valid() && forall i :: 0 <= i < |rfs| ==> Subscribers(View().subs, rfs[i]) == {}
      modifies this`events
      ensures Valid() && View().registered == old(View().registered) && View().subs == old(View().subs)
      ensures events == old(events) + Stops(rfs)
    {
      for i := 0 to |rfs|
        invariant Valid() && View().registered == old(View().registered) && View().subs == old(View().subs)
        invariant events == old(events) + Stops(rfs[..i])
      {
        CheckSmLifecycle(rfs[i], true);
        assert Stops(rfs[..i + 1]) == Stops(rfs[..i]) + [Event(rfs[i], false)];
      }
      assert rfs[..|rfs|] == rfs;
    }

    // --------------------------------------------------------------- subscriptions

    method AddSubscription(d: nat, r: nat, telemetry: seq<nat>, controls: seq<nat>, periodicity: nat, seconds: nat, now: nat)
      returns (code: Code, id: nat)
      requires Valid() && d < U32 && r < U32
      modifies this
      ensures Valid()
      ensures Outcome(View(), code, id) == Add(old(View()), d, r, NewDetails(telemetry, controls, periodicity, seconds, now), now)
    {
      if d !in registered {
        return DappNotRegistered, 0;
      }
      var terms := NewDetails(telemetry, controls, periodicity, seconds, now);
      var k := Key(d, r);
      ghost var ix := Ix();
      RelationAt(ix, d, r);
      if r in dappSubs[d] {
        id := subRev[k];
        if k in details && IsExpired(details[k], now) {
          RenewRelation(ix, d, r, terms);
          details := details[k := terms];
          return Success, id;
        }
        return SubscriptionExists, id;
      }
      code, id := AddFirst(d, r, terms);
    }

    /** The rest of `AddSubscription`, for a pair that is not subscribed. */
    method AddFirst(d: nat, r: nat, terms: Details) returns (code: Code, id: nat)
      requires Valid() && d in registered && r < U32 && !Holds(Ix(), d, r)
      modifies this
      ensures Valid()
      ensures View().registered == old(View().registered)
      ensures var free := LowestFree(Ids(old(View().subs)));
              if free == 0 then code == InternalError && id == 0 && View() == old(View())
              else && code == Success && id == free
                   && View().subs == old(View().subs)[(d, r) := Entry(id, terms)]
                   && events == old(events) + if Subscribers(old(View().subs), r) == {} then [Event(r, true)] else []
    {
      var hadSubscribers := LookUp(r);
      IdIndexIsIds(Ix());
      id := LowestFreeId(subIds.Keys);
      if id == 0 {
        return InternalError, 0;
      }
      ghost var rel := View().subs;
      InsertRow(d, r, id, terms);
      if !hadSubscribers {
        SubscribersGrow(rel, d, r, Entry(id, terms), r);
        CheckSmLifecycle(r, false);
      }
      code := Success;
    }

    /** Whether a function has subscribers, looked up in a way that leaves an empty set behind
        for a function never seen before. */
    method LookUp(r: nat) returns (had: bool)
      requires Valid()
      modifies this`rfSubs
      ensures Valid() && View() == old(View())
      ensures had <==> Subscribers(View().subs, r) != {}
    {
      ghost var ix := Ix();
      RfIndexIsSubscribers(ix, r);
      rfSubs := rfSubs[r := GetSet(rfSubs, r)];
      SameRows(ix, Ix());
      had := rfSubs[r] != {};
    }

    method InsertRow(d: nat, r: nat, id: nat, terms: Details)
      requires Valid() && d in registered && r < U32 && !Holds(Ix(), d, r) && id !in subIds
      modifies this`dappSubs, this`rfSubs, this`subIds, this`subRev, this`details
      ensures Valid() && View().subs == old(View().subs)[(d, r) := Entry(id, terms)]
    {
      ghost var ix := Ix();
      dappSubs := dappSubs[d := GetSet(dappSubs, d) + {r}];
      rfSubs := rfSubs[r := GetSet(rfSubs, r) + {d}];
      subIds := subIds[id := (d, r)];
      subRev := subRev[Key(d, r) := id];
      details := details[Key(d, r) := terms];
      assert Ix() == Inserted(ix, d, r, id, terms);
      InsertCoherent(ix, d, r, id, terms);
      InsertRelation(ix, d, r, id, terms);
    }

    method RemoveSubscription(d: nat, r: nat) returns (code: Code)
      requires Valid()
      modifies this
      ensures Valid()
      ensures View() == Remove(old(View()), d, r).after && code == Remove(old(View()), d, r).code
    {
      PairsHold(Ix());
      if d !in dappSubs || r !in dappSubs[d] {
        return SubscriptionNotFound;
      }
      EraseAndStop(d, r);
      code := Success;
    }

    /** Take a subscribed pair out of every index and stop its function if it was the last. */
    method EraseAndStop(d: nat, r: nat)
      requires Valid() && Holds(Ix(), d, r)
      modifies this
      ensures Valid()
      ensures (d, r) in old(View().subs) && View() == Remove(old(View()), d, r).after
    {
      ghost var ix := Ix();
      PairsHold(ix);
      assert Linked(ix, d, r);
      EraseCoherent(ix, d, r);
      EraseRelation(ix, d, r);
      RfIndexIsSubscribers(Erased(ix, d, r), r);
      dappSubs := dappSubs[d := GetSet(dappSubs, d) - {r}];
      var emptied := EraseRow(d, r);
      assert Ix() == Erased(ix, d, r);
      if emptied {
        CheckSmLifecycle(r, true);
      }
    }

    /** A dApp can delete only its own subscription, whatever id it names. */
    method RemoveSubscriptionById(d: nat, id: nat) returns (code: Code)
      requires Valid()
      modifies this
      ensures Valid()
      ensures View() == RemoveById(old(View()), d, id).after && code == RemoveById(old(View()), d, id).code
    {
      ghost var a := View();
      forall r: nat ensures Owns(a, d, r, id) <==> id in subIds && subIds[id] == (d, r) {
        IdIndexIsOwnership(Ix(), id, d, r);
      }
      if id !in subIds {
        return SubscriptionNotFound;
      }
      var (owner, r) := subIds[id];
      if owner != d {
        return SubscriptionNotFound;
      }
      assert Owns(a, d, r, id);
      PairsHold(Ix());
      EraseAndStop(d, r);
      code := Success;
    }

    // -------------------------------------------------------------------- expiry

    /** The sweep: all that has reached its deadline goes and is reported once, and functions left
        without subscribers are stopped. */
    method ExpireSubscriptions(at: nat) returns (expired: seq<Expired>)
      requires Valid()
      modifies this
      ensures Valid()
      ensures Sweep(old(View()), at, View())
      ensures forall p :: p in View().subs <==>
                p in old(View()).subs && (var e := old(View()).subs[p].details.expires; e.None? || at < e.value)
      ensures Reports(old(View().subs), ExpiredPairs(old(View().subs), at), expired)
    {
      ghost var a := View();
      var emptied;
      expired, emptied := EraseExpired(at);
      forall i | 0 <= i < |emptied| ensures Subscribers(View().subs, emptied[i]) == {} {
        assert emptied[i] in Elements(emptied);
      }
      StopAll(emptied);
      StopsAreExact(emptied, Emptied(a.subs, ExpiredPairs(a.subs, at)));
      assert events[|a.events|..] == Stops(emptied);
    }

    /** The locked part of `ExpireSubscriptions`. */
    method EraseExpired(at: nat) returns (expired: seq<Expired>, emptied: seq<nat>)
      requires Valid()
      modifies this`dappSubs, this`rfSubs, this`subIds, this`subRev, this`details
      ensures Removing(Ix(), old(View().subs), ExpiredPairs(old(View().subs), at), emptied)
      ensures Reports(old(View().subs), ExpiredPairs(old(View().subs), at), expired)
    {
      ghost var rel := View().subs;
      ghost var gone: set<Pair> := {};
      expired, emptied := [], [];
      var todo := details.Keys;
      while todo != {}
        invariant Removing(Ix(), rel, gone, emptied) && gone <= ExpiredPairs(rel, at)
        invariant Reports(rel, gone, expired)
        invariant LiveOutside(details, todo, at)
        decreases todo
      {
        var k :| k in todo;
        LiveStep(details, todo, k, at);
        todo := todo - {k};
        if IsExpired(details[k], at) {
          expired, emptied := SweepOne(k, rel, gone, expired, emptied);
          gone := gone + {(DappOf(k), RfOf(k))};
        }
      }
      SweptAll(Ix(), rel, gone, at);
    }

    /** Erases one row and reports it. */
    method SweepOne(k: nat, ghost rel: map<Pair, Entry>, ghost gone: set<Pair>, expired: seq<Expired>, emptied: seq<nat>)
      returns (expired': seq<Expired>, emptied': seq<nat>)
      requires Removing(Ix(), rel, gone, emptied) && Reports(rel, gone, expired) && k in details
      modifies this`dappSubs, this`rfSubs, this`subIds, this`subRev, this`details
      ensures var p := (DappOf(k), RfOf(k));
              && p in rel && rel[p].details == old(details[k])
              && Removing(Ix(), rel, gone + {p}, emptied') && Reports(rel, gone + {p}, expired')
              && details == old(details) - {k}
    {
      var d, r := DappOf(k), RfOf(k);
      var id := EraseExpiredRow(k, rel, gone, emptied);
      emptied' := if GetSet(rfSubs, r) == {} then emptied + [r] else emptied;
      ReportsGrow(rel, gone, expired, d, r);
      expired' := expired + [Expired(d, r, id)];
    }

    method EraseExpiredRow(k: nat, ghost rel: map<Pair, Entry>, ghost gone: set<Pair>, ghost emptied: seq<nat>)
      returns (id: nat)
      requires Removing(Ix(), rel, gone, emptied) && k in details
      modifies this`dappSubs, this`rfSubs, this`subIds, this`subRev, this`details
      ensures var p := (DappOf(k), RfOf(k));
              && p in rel && p !in gone && rel[p] == Entry(id, old(details[k]))
              && Removing(Ix(), rel, gone + {p}, if GetSet(rfSubs, RfOf(k)) == {} then emptied + [RfOf(k)] else emptied)
              && details == old(details) - {k}
    {
      var d, r := DappOf(k), RfOf(k);
      ghost var ix := Ix();
      assert k == Key(d, r) && r < U32;
      RelationAt(ix, d, r);
      id := subRev[k];
      dappSubs := dappSubs[d := GetSet(dappSubs, d) - {r}];
      var _ := EraseRow(d, r);
      assert Ix() == Erased(ix, d, r);
      RemovingStep(ix, rel, gone, emptied, d, r);
    }

    // -------------------------------------------------------------------- queries

    method IsDappRegistered(d: nat) returns (b: bool)
      requires Valid()
      ensures b <==> d in View().registered
    {
      b := d in registered;
    }

    /** The recipients of an indication at time `at`: expired subscriptions are left out whether
        or not they have been swept. */
    method GetSubscribedDapps(r: nat, at: nat) returns (dapps: seq<nat>)
      requires Valid()
      ensures Distinct(dapps) && Elements(dapps) == Live(View().subs, r, at)
      ensures forall d: nat :: d in dapps <==>
                (d, r) in View().subs && (var e := View().subs[(d, r)].details.expires; e.None? || at < e.value)
    {
      dapps := [];
      RfIndexIsSubscribers(Ix(), r);
      if r !in rfSubs {
        LiveIsFiltered(View().subs, r, at);
        return;
      }
      var todo := rfSubs[r];
      while todo != {}
        invariant todo <= rfSubs[r] && Distinct(dapps)
        invariant forall d: nat :: d in dapps <==>
                    d in rfSubs[r] - todo && (d, r) in View().subs && !IsExpired(View().subs[(d, r)].details, at)
        decreases todo
      {
        var d :| d in todo;
        assert Serves(Ix(), d, r) && Linked(Ix(), d, r);
        RelationAt(Ix(), d, r);
        if Key(d, r) !in details || !IsExpired(details[Key(d, r)], at) {
          dapps := dapps + [d];
        }
        todo := todo - {d};
      }
      LiveIsFiltered(View().subs, r, at);
    }
  }

  /** `expired` reports each pair of `gone` once, under the id it had. */
  ghost predicate Reports(rel: map<Pair, Entry>, gone: set<Pair>, expired: seq<Expired>) {
    && (forall i :: 0 <= i < |expired| ==>
          var p := (expired[i].dapp, expired[i].ranFunction); p in gone && p in rel && rel[p].id == expired[i].id)
    && (forall p :: p in gone ==> p in rel && Expired(p.0, p.1, rel[p].id) in expired)
    && |expired| == |gone|
  }

  lemma ReportsGrow(rel: map<Pair, Entry>, gone: set<Pair>, expired: seq<Expired>, d: nat, r: nat)
    requires Reports(rel, gone, expired) && (d, r) in rel && (d, r) !in gone
    ensures Reports(rel, gone + {(d, r)}, expired + [Expired(d, r, rel[(d, r)].id)])
  {
    var expired' := expired + [Expired(d, r, rel[(d, r)].id)];
    assert expired'[|expired|] == Expired(d, r, rel[(d, r)].id);
    forall p | p in gone ensures Expired(p.0, p.1, rel[p].id) in expired' {
      assert Expired(p.0, p.1, rel[p].id) in expired;
    }
  }

  /** What the sweep has looked at already and left is live. */
  ghost predicate LiveOutside(details: map<nat, Details>, todo: set<nat>, at: nat) {
    todo <= details.Keys && forall k :: k in details && k !in todo ==> !IsExpired(details[k], at)
  }

  lemma LiveStep(details: map<nat, Details>, todo: set<nat>, k: nat, at: nat)
    requires LiveOutside(details, todo, at) && k in todo
    ensures LiveOutside(if IsExpired(details[k], at) then details - {k} else details, todo - {k}, at)
  {
  }

  /** When no expired row is left, exactly the expired pairs have been removed. */
  lemma SweptAll(ix: Indexes, rel: map<Pair, Entry>, gone: set<Pair>, at: nat)
    requires Coherent(ix) && Relation(ix) == rel - gone && gone <= ExpiredPairs(rel, at)
    requires LiveOutside(ix.details, {}, at)
    ensures gone == ExpiredPairs(rel, at)
  {
    PairsHold(ix);
    forall p | p in ExpiredPairs(rel, at) ensures p in gone {
      if p in rel - gone {
        assert Holds(ix, p.0, p.1);
        RelationAt(ix, p.0, p.1);
      }
    }
  }

  lemma LiveIsFiltered(subs: map<Pair, Entry>, r: nat, at: nat)
    ensures forall d: nat :: d in Live(subs, r, at) <==> (d, r) in subs && !IsExpired(subs[(d, r)].details, at)
    ensures forall d: nat :: d in Live(subs, r, at) ==> d in Subscribers(subs, r)
  {
    forall d: nat | (d, r) in subs && !IsExpired(subs[(d, r)].details, at) ensures d in Live(subs, r, at) {
      var p := (d, r);
      assert p in subs && p.1 == r;
    }
  }
}
