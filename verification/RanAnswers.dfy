/** The RAN's answers to subscription and delete requests, and what each answer means. */
module RanAnswers {
  import opened Options
  import opened SubscriptionSpec
  import opened SubscriptionTheorems
  import opened E3Messages

  /** What the Service Model of a RAN function advertises. */
  datatype ServiceModel = ServiceModel(telemetry: seq<nat>, controls: seq<nat>)

  type Registry = map<nat, ServiceModel>

  ghost predicate AllIn(ids: seq<nat>, offered: seq<nat>) {
    forall i :: 0 <= i < |ids| ==> ids[i] in offered
  }

  /** A request is refused when the function is not served, nothing is asked for, or something
      asked for is not offered, in this order of precedence. */
  ghost function RefusalCause(sms: Registry, req: SubscriptionRequest): Option<Cause> {
    if req.ranFunction !in sms then Some(UnsupportedRanFunction)
    else if req.telemetry == [] && req.controls == [] then Some(InvalidRequest)
    else if !AllIn(req.telemetry, sms[req.ranFunction].telemetry) || !AllIn(req.controls, sms[req.ranFunction].controls)
    then Some(UnsupportedIdentifier)
    else None
  }

  /** The state after a request is handled, and the answer to it. */
  datatype Answer = Answer(after: Spec, response: Response)

  function Refuse(a: Spec, requestId: nat, dapp: nat, cause: Cause): Answer {
    Answer(a, Response(requestId, dapp, false, None, Some(cause)))
  }

  function Requested(req: SubscriptionRequest, now: nat): Details {
    NewDetails(req.telemetry, req.controls, ValueOr(req.periodicity, 0), ValueOr(req.seconds, 0), now)
  }

  ghost function AnswerRequest(a: Spec, sms: Registry, req: SubscriptionRequest, requestId: nat, now: nat): Answer {
    if req.dapp !in a.registered then Refuse(a, requestId, req.dapp, SetupRequired)
    else
      match RefusalCause(sms, req)
      case Some(cause) => Refuse(a, requestId, req.dapp, cause)
      case None =>
        var o := Add(a, req.dapp, req.ranFunction, Requested(req, now), now);
        if o.code == Success || o.code == SubscriptionExists
        then Answer(o.after, Response(requestId, req.dapp, true, Some(o.id), None))
        else Refuse(o.after, requestId, req.dapp, if o.code == InternalError then ResourceExhausted else Unspecified)
  }

  ghost function AnswerDelete(a: Spec, del: SubscriptionDelete, requestId: nat): Answer {
    var o := RemoveById(a, del.dapp, del.id);
    if o.code == Success then Answer(o.after, Response(requestId, del.dapp, true, Some(del.id), None))
    else Refuse(o.after, requestId, del.dapp, if o.code == DappNotRegistered then SetupRequired else NotFound)
  }

  // ----------------------------------------------------------------- truthful replies

  /** A positive answer names an id the manager maps to exactly that dApp and function. */
  lemma PositiveAnswersNameTheSubscription(a: Spec, sms: Registry, req: SubscriptionRequest, requestId: nat, now: nat)
    requires WellFormed(a) && AnswerRequest(a, sms, req, requestId, now).response.positive
    ensures var ans := AnswerRequest(a, sms, req, requestId, now);
            && ans.response.requestId == requestId && ans.response.dapp == req.dapp && ans.response.id.Some?
            && WellFormed(ans.after)
            && forall d: nat, f: nat :: Owns(ans.after, d, f, ans.response.id.value) <==> (d, f) == (req.dapp, req.ranFunction)
  {
    var ans := AnswerRequest(a, sms, req, requestId, now);
    AddKeepsWellFormed(a, req.dapp, req.ranFunction, Requested(req, now), now);
    var id := ans.response.id.value;
    assert Owns(ans.after, req.dapp, req.ranFunction, id);
    forall d: nat, f: nat | Owns(ans.after, d, f, id) ensures (d, f) == (req.dapp, req.ranFunction) {
      OwnerIsUnique(ans.after, d, f, req.dapp, req.ranFunction, id);
    }
  }

  /** A negative answer gives a cause and changes nothing; a positive one touches no other pair;
      and the answer is positive exactly when the dApp is registered, the request is one the
      function can serve, and an id is held already or free. */
  lemma AnswersAreExact(a: Spec, sms: Registry, req: SubscriptionRequest, requestId: nat, now: nat)
    ensures var ans := AnswerRequest(a, sms, req, requestId, now);
            && (!ans.response.positive ==> ans.response.cause.Some? && ans.response.id.None? && ans.after == a)
            && ans.after.subs - {(req.dapp, req.ranFunction)} == a.subs - {(req.dapp, req.ranFunction)}
            && ans.after.registered == a.registered
            && (ans.response.positive <==>
                  && req.dapp in a.registered && RefusalCause(sms, req).None?
                  && ((req.dapp, req.ranFunction) in a.subs || LowestFree(Ids(a.subs)) != 0))
  {
  }

  /** Exactly when a request is granted, and which cause is given otherwise: that of the first test
      it fails. */
  lemma RefusedExactly(a: Spec, sms: Registry, req: SubscriptionRequest, requestId: nat, now: nat)
    ensures var r, rf := AnswerRequest(a, sms, req, requestId, now).response, req.ranFunction;
            var known := req.dapp in a.registered;
            var served := rf in sms;
            var asks := req.telemetry != [] || req.controls != [];
            var offered := served
              && (forall i :: 0 <= i < |req.telemetry| ==> req.telemetry[i] in sms[rf].telemetry)
              && (forall i :: 0 <= i < |req.controls| ==> req.controls[i] in sms[rf].controls);
            var room := (req.dapp, rf) in a.subs || exists id :: MIN_ID <= id <= MAX_ID && !InUse(a.subs, id);
            && (r.positive <==> known && served && asks && offered && room)
            && r.requestId == requestId && r.dapp == req.dapp
            && (r.positive ==> r.cause == None)
            && (!known ==> r.cause == Some(SetupRequired))
            && (known && !served ==> r.cause == Some(UnsupportedRanFunction))
            && (known && served && !asks ==> r.cause == Some(InvalidRequest))
            && (known && served && asks && !offered ==> r.cause == Some(UnsupportedIdentifier))
            && (known && served && asks && offered && !room ==> r.cause == Some(ResourceExhausted))
  {
    IdsAreInUse(a.subs);
    var free := LowestFree(Ids(a.subs));
    assert free != 0 ==> MIN_ID <= free <= MAX_ID && !InUse(a.subs, free);
  }

  lemma OwnerIsUnique(a: Spec, d: nat, r: nat, d': nat, r': nat, id: nat)
    requires WellFormed(a) && Owns(a, d, r, id) && Owns(a, d', r', id)
    ensures d == d' && r == r'
  {
    assert (d, r) == (d', r');
  }

  /** A delete is answered positively exactly when the dApp owns the id it names; it then
      removes that one subscription, and otherwise nothing.  It never removes another dApp's. */
  lemma DeletesStayWithinTheDapp(a: Spec, del: SubscriptionDelete, requestId: nat, r: nat)
    requires WellFormed(a)
    ensures var ans := AnswerDelete(a, del, requestId);
            && (ans.response.positive <==> exists f :: Owns(a, del.dapp, f, del.id))
            && (Owns(a, del.dapp, r, del.id) ==> ans.after.subs == a.subs - {(del.dapp, r)})
            && (!ans.response.positive ==> ans.response.cause == Some(NotFound) && ans.after == a)
            && (forall p :: p in a.subs && p.0 != del.dapp ==> p in ans.after.subs && ans.after.subs[p] == a.subs[p])
            && ans.after.registered == a.registered
            && ans.response.requestId == requestId && ans.response.dapp == del.dapp
            && (ans.response.positive ==> ans.response.id == Some(del.id) && ans.response.cause == None)
  {
    if f :| Owns(a, del.dapp, f, del.id) && RemoveById(a, del.dapp, del.id) == Remove(a, del.dapp, f) {
      if Owns(a, del.dapp, r, del.id) {
        OwnerIsUnique(a, del.dapp, r, del.dapp, f, del.id);
      }
    }
  }
}
