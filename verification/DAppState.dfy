/** What a dApp remembers of the subscriptions it negotiated: the record kept per RAN function,
    first as a value, then as the object that is updated in place. */
module DAppState {
  import opened Options

  /** The id the RAN assigned, function -> subscription id, subscription id -> function, and
      function -> deadline for the subscriptions that have one. */
  datatype Held = Held(
    dappId: Option<nat>,
    rfToSub: map<nat, nat>,
    subToRf: map<nat, nat>,
    expiry: map<nat, nat>)

  const NOTHING: Held := Held(None, map[], map[], map[])

  function Record(h: Held, rf: nat, sub: nat, expires: Option<nat>): Held {
    h.(rfToSub := h.rfToSub[rf := sub],
       subToRf := h.subToRf[sub := rf],
       expiry := match expires case Some(t) => h.expiry[rf := t] case None => h.expiry - {rf})
  }

  function DueAt(h: Held, now: nat): set<nat> {
    set rf | rf in h.expiry && now >= h.expiry[rf]
  }

  function SubsOf(h: Held, rfs: set<nat>): set<nat> {
    set rf | rf in rfs && rf in h.rfToSub :: h.rfToSub[rf]
  }

  /** Forget the functions in `rfs`, with the reverse entries of the ids they had. */
  function Forget(h: Held, rfs: set<nat>): Held {
    h.(rfToSub := h.rfToSub - rfs, subToRf := h.subToRf - SubsOf(h, rfs), expiry := h.expiry - rfs)
  }

  function ExpireAt(h: Held, now: nat): Held {
    Forget(h, DueAt(h, now))
  }

  function ForgetByRf(h: Held, rf: nat): Held {
    if rf in h.rfToSub then Forget(h, {rf}) else h
  }

  function ForgetById(h: Held, sub: nat): Held {
    if sub in h.subToRf
    then h.(rfToSub := h.rfToSub - {h.subToRf[sub]}, subToRf := h.subToRf - {sub}, expiry := h.expiry - {h.subToRf[sub]})
    else h
  }

  function Deadline(h: Held, rf: nat): Option<nat> {
    if rf in h.expiry then Some(h.expiry[rf]) else None
  }

  // ------------------------------------------------------------------- invariants

  /** A deadline is only ever kept for a held function. */
  ghost predicate DeadlinesHeld(h: Held) {
    h.expiry.Keys <= h.rfToSub.Keys
  }

  lemma DeadlinesStayHeld(h: Held, rf: nat, sub: nat, expires: Option<nat>, now: nat)
    requires DeadlinesHeld(h)
    ensures DeadlinesHeld(Record(h, rf, sub, expires)) && DeadlinesHeld(ExpireAt(h, now))
    ensures DeadlinesHeld(ForgetByRf(h, rf)) && DeadlinesHeld(ForgetById(h, sub))
  {
    forall f | f in ForgetById(h, sub).expiry ensures f in ForgetById(h, sub).rfToSub {
      assert f in h.expiry;
    }
  }

  /** The two maps are each other's inverse. */
  ghost predicate Inverse(h: Held) {
    && (forall rf :: rf in h.rfToSub ==> h.rfToSub[rf] in h.subToRf && h.subToRf[h.rfToSub[rf]] == rf)
    && (forall sub :: sub in h.subToRf ==> h.subToRf[sub] in h.rfToSub && h.rfToSub[h.subToRf[sub]] == sub)
  }

  /** Recording keeps the maps inverse exactly when it repeats a held pair or both of its ids
      are new; every other call breaks them. */
  lemma RecordKeepsInverseExactly(h: Held, rf: nat, sub: nat, expires: Option<nat>)
    requires Inverse(h)
    ensures Inverse(Record(h, rf, sub, expires)) <==>
              (rf in h.rfToSub && h.rfToSub[rf] == sub) || (rf !in h.rfToSub && sub !in h.subToRf)
  {
    var h' := Record(h, rf, sub, expires);
    if rf in h.rfToSub && h.rfToSub[rf] != sub {
      var oldSub := h.rfToSub[rf];
      assert h'.subToRf[oldSub] == rf && h'.rfToSub[rf] == sub;
    } else if rf !in h.rfToSub && sub in h.subToRf {
      var other := h.subToRf[sub];
      assert other != rf && h'.rfToSub[other] == sub && h'.subToRf[sub] == rf;
    }
  }

  lemma RemovalsKeepInverse(h: Held, rf: nat, sub: nat, now: nat)
    requires Inverse(h)
    ensures Inverse(ForgetByRf(h, rf)) && Inverse(ForgetById(h, sub)) && Inverse(ExpireAt(h, now))
  {
    ForgetKeepsInverse(h, {rf});
    ForgetKeepsInverse(h, DueAt(h, now));
  }

  lemma ForgetKeepsInverse(h: Held, rfs: set<nat>)
    requires Inverse(h)
    ensures Inverse(Forget(h, rfs))
  {
    var h' := Forget(h, rfs);
    forall rf | rf in h'.rfToSub ensures h'.rfToSub[rf] in h'.subToRf {
      assert h.rfToSub[rf] !in SubsOf(h, rfs);
    }
    forall sub | sub in h'.subToRf ensures h'.subToRf[sub] in h'.rfToSub {
      assert h.subToRf[sub] in rfs ==> sub in SubsOf(h, rfs);
    }
  }

  /** When the RAN reissues the id of a subscription the dApp has not yet forgotten, forgetting
      the old one takes the new one's reverse entry with it. */
  lemma ReusedIdLosesReverseEntry(rf: nat, other: nat, sub: nat, t: nat)
    requires rf != other
    ensures var h := Record(Record(NOTHING, rf, sub, Some(t)), other, sub, None);
            var h' := ExpireAt(h, t);
            other in h'.rfToSub && h'.rfToSub[other] == sub && sub !in h'.subToRf
  {
    var h := Record(Record(NOTHING, rf, sub, Some(t)), other, sub, None);
    assert rf in DueAt(h, t) && h.rfToSub[rf] == sub;
    assert sub in SubsOf(h, DueAt(h, t));
    assert other !in h.expiry;
  }

  // -------------------------------------------------- what is recorded, what is forgotten

  /** Recording puts the function under the id and the id under the function, with the deadline
      given or none, and touches no other function and no other id. */
  lemma RecordExactly(h: Held, rf: nat, sub: nat, expires: Option<nat>, f: nat, id: nat)
    ensures var h' := Record(h, rf, sub, expires);
            && h'.dappId == h.dappId && Deadline(h', rf) == expires
            && (f in h'.rfToSub <==> f == rf || f in h.rfToSub)
            && (f in h'.rfToSub ==> h'.rfToSub[f] == if f == rf then sub else h.rfToSub[f])
            && (f != rf ==> Deadline(h', f) == Deadline(h, f))
            && (id in h'.subToRf <==> id == sub || id in h.subToRf)
            && (id in h'.subToRf ==> h'.subToRf[id] == if id == sub then rf else h.subToRf[id])
  {
  }

  /** After expiry, held are exactly the functions that were and whose deadline is not yet reached
      or does not exist; they keep their ids and deadlines. */
  lemma ExpiresExactly(h: Held, now: nat, rf: nat)
    ensures var h' := ExpireAt(h, now);
            && (rf in h'.rfToSub <==> rf in h.rfToSub && (rf in h.expiry ==> now < h.expiry[rf]))
            && (rf in h'.rfToSub ==> h'.rfToSub[rf] == h.rfToSub[rf] && Deadline(h', rf) == Deadline(h, rf))
            && (rf in h'.expiry <==> rf in h.expiry && now < h.expiry[rf])
            && h'.dappId == h.dappId
  {
  }

  /** Removing a function ends it, its deadline and the reverse entry of its id, and nothing else. */
  lemma ForgetByRfExactly(h: Held, rf: nat, f: nat, sub: nat)
    requires rf in h.rfToSub
    ensures var h' := ForgetByRf(h, rf);
            && (f in h'.rfToSub <==> f in h.rfToSub && f != rf)
            && (f in h'.rfToSub ==> h'.rfToSub[f] == h.rfToSub[f])
            && (f in h'.expiry <==> f in h.expiry && f != rf)
            && (f in h'.expiry ==> h'.expiry[f] == h.expiry[f])
            && (sub in h'.subToRf <==> sub in h.subToRf && sub != h.rfToSub[rf])
            && (sub in h'.subToRf ==> h'.subToRf[sub] == h.subToRf[sub])
  {
    assert SubsOf(h, {rf}) == {h.rfToSub[rf]};
  }

  /** Removing an id ends it and the function it stands for, with its deadline, and nothing else. */
  lemma ForgetByIdExactly(h: Held, id: nat, f: nat, sub: nat)
    requires id in h.subToRf
    ensures var h' := ForgetById(h, id);
            && (f in h'.rfToSub <==> f in h.rfToSub && f != h.subToRf[id])
            && (f in h'.rfToSub ==> h'.rfToSub[f] == h.rfToSub[f])
            && (f in h'.expiry <==> f in h.expiry && f != h.subToRf[id])
            && (f in h'.expiry ==> h'.expiry[f] == h.expiry[f])
            && (sub in h'.subToRf <==> sub in h.subToRf && sub != id)
            && (sub in h'.subToRf ==> h'.subToRf[sub] == h.subToRf[sub])
  {
  }

  /** What is not there cannot be removed. */
  lemma ForgetNothing(h: Held, rf: nat, id: nat)
    ensures rf !in h.rfToSub ==> ForgetByRf(h, rf) == h
    ensures id !in h.subToRf ==> ForgetById(h, id) == h
  {
  }

  // ------------------------------------------------------------------- the object

  class DAppSubscriptionState {
    var dappId: Option<nat>
    var rfToSub: map<nat, nat>
    var subToRf: map<nat, nat>
    var expiry: map<nat, nat>

    ghost function View(): Held
      reads this
    {
      Held(dappId, rfToSub, subToRf, expiry)
    }

    constructor ()
      ensures View() == NOTHING
    {
      dappId, rfToSub, subToRf, expiry := None, map[], map[], map[];
    }

    method RecordSetupResponse(dapp: nat)
      modifies this
      ensures View() == old(View()).(dappId := Some(dapp))
    {
      dappId := Some(dapp);
    }

    method ClearSession()
      modifies this
      ensures View() == NOTHING
    {
      dappId, rfToSub, subToRf, expiry := None, map[], map[], map[];
    }

    method RecordSubscription(rf: nat, sub: nat, expires: Option<nat>)
      modifies this
      ensures View() == Record(old(View()), rf, sub, expires)
    {
      rfToSub := rfToSub[rf := sub];
      subToRf := subToRf[sub := rf];
      if expires.Some? {
        expiry := expiry[rf := expires.value];
      } else {
        expiry := expiry - {rf};
      }
    }

    /** Forgets all functions whose deadline has come, in whatever order the table lists them. */
    method ExpireSubscriptions(now: nat) returns (expired: seq<nat>)
      modifies this
      ensures View() == ExpireAt(old(View()), now)
      ensures (set rf | rf in expired) == DueAt(old(View()), now)
      ensures forall i, j :: 0 <= i < j < |expired| ==> expired[i] != expired[j]
    {
      ghost var h := View();
      ghost var gone: set<nat> := {};
      expired := [];
      var todo := expiry.Keys;
      while todo != {}
        invariant gone <= DueAt(h, now) && View() == Forget(h, gone)
        invariant todo <= h.expiry.Keys && todo !! gone
        invariant DueAt(h, now) <= gone + todo
        invariant (set rf | rf in expired) == gone
        invariant forall i, j :: 0 <= i < j < |expired| ==> expired[i] != expired[j]
        decreases todo
      {
        var rf :| rf in todo;
        todo := todo - {rf};
        if now >= expiry[rf] {
          ForgetOneMore(h, gone, rf);
          if rf in rfToSub {
            subToRf := subToRf - {rfToSub[rf]};
            rfToSub := rfToSub - {rf};
          }
          assert rf !in gone;
          assert forall i :: 0 <= i < |expired| ==> expired[i] in gone;
          expired := expired + [rf];
          expiry := expiry - {rf};
          gone := gone + {rf};
        }
      }
      assert gone == DueAt(h, now);
    }

    method RemoveSubscriptionByRf(rf: nat) returns (removed: bool)
      modifies this
      ensures View() == ForgetByRf(old(View()), rf)
      ensures removed <==> rf in old(rfToSub)
    {
      if rf !in rfToSub {
        return false;
      }
      var sub := rfToSub[rf];
      assert SubsOf(View(), {rf}) == {sub};
      rfToSub := rfToSub - {rf};
      subToRf := subToRf - {sub};
      expiry := expiry - {rf};
      removed := true;
    }

    method RemoveSubscriptionById(sub: nat) returns (removed: bool)
      modifies this
      ensures View() == ForgetById(old(View()), sub)
      ensures removed <==> sub in old(subToRf)
    {
      if sub !in subToRf {
        return false;
      }
      var rf := subToRf[sub];
      subToRf := subToRf - {sub};
      rfToSub := rfToSub - {rf};
      expiry := expiry - {rf};
      removed := true;
    }
  }

  lemma ForgetOneMore(h: Held, gone: set<nat>, rf: nat)
    requires rf !in gone
    ensures var g := Forget(h, gone);
            Forget(h, gone + {rf}) ==
              g.(rfToSub := g.rfToSub - {rf},
                 subToRf := if rf in g.rfToSub then g.subToRf - {g.rfToSub[rf]} else g.subToRf,
                 expiry := g.expiry - {rf})
  {
    var g := Forget(h, gone);
    assert SubsOf(h, gone + {rf}) == SubsOf(h, gone) + if rf in h.rfToSub then {h.rfToSub[rf]} else {};
    assert h.rfToSub - (gone + {rf}) == g.rfToSub - {rf};
    assert h.expiry - (gone + {rf}) == g.expiry - {rf};
    if rf in h.rfToSub {
      assert h.subToRf - SubsOf(h, gone + {rf}) == g.subToRf - {h.rfToSub[rf]};
    }
  }
}
