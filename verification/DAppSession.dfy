/** The dApp's side of the subscription procedure against an arbitrary network: requests go
    out, responses of any kind come in, in any order, any number of times. */
module DAppSession {
  import opened Options
  import opened SubscriptionSpec
  import opened E3Messages
  import opened DAppState

  /** A request awaiting its response. */
  datatype Pending = Pending(ranFunction: nat, isDelete: bool, seconds: Option<nat>)

  /** The dApp role of the interface; `calls` counts the message ids handed out so far and is
      never reset. */
  datatype App = App(held: Held, pending: map<nat, Pending>, calls: nat, ranGone: bool)

  const FRESH: App := App(NOTHING, map[], 0, false)

  function NextId(app: App): nat {
    MessageId(app.calls)
  }

  /** A subscription request: remembered under its id before it is sent, forgotten again when it
      cannot be queued. */
  function Request(app: App, rf: nat, seconds: Option<nat>, queued: bool): App {
    if app.held.dappId.None? then app
    else
      var id := NextId(app);
      var app' := app.(calls := app.calls + 1);
      if queued then app'.(pending := app.pending[id := Pending(rf, false, seconds)])
      else app'.(pending := app.pending - {id})
  }

  function Delete(app: App, rf: nat, queued: bool): App {
    if app.held.dappId.None? || rf !in app.held.rfToSub then app
    else
      var id := NextId(app);
      var app' := app.(calls := app.calls + 1);
      if queued then app'.(pending := app.pending[id := Pending(rf, true, None)])
      else app'.(pending := app.pending - {id})
  }

  /** A message of another kind takes an id too. */
  function OtherMessage(app: App): App {
    app.(calls := app.calls + 1)
  }

  /** What an attributed positive response does to the record. */
  function Apply(h: Held, op: Pending, id: Option<nat>, now: nat): Held {
    if op.isDelete then ForgetByRf(h, op.ranFunction)
    else
      match id
      case None => h
      case Some(sub) =>
        Record(h, op.ranFunction, sub,
               if ValueOr(op.seconds, 0) > 0 then Some(now + ValueOr(op.seconds, 0) * SECOND) else None)
  }

  /** A response counts only if it names this dApp and a request that is still pending, and it
      uses that request up. */
  function Receive(app: App, r: Response, now: nat): App {
    if app.held.dappId != Some(r.dapp) then app
    else if r.requestId !in app.pending then app
    else
      var op := app.pending[r.requestId];
      app.(pending := app.pending - {r.requestId},
           held := if r.positive then Apply(app.held, op, r.id, now) else app.held)
  }

  function SetupAnswered(app: App, dapp: Option<nat>, positive: bool): App {
    if positive then app.(held := app.held.(dappId := Some(ValueOr(dapp, 0)))) else app
  }

  function RanGone(app: App): App {
    if app.ranGone then app else app.(held := NOTHING, pending := map[], ranGone := true)
  }

  function Restart(app: App): App {
    app.(held := NOTHING, pending := map[], ranGone := false)
  }

  /** What a response does.  One for another dApp, or to nothing pending, changes nothing; any other
      uses up its request.  A refusal does no more than that.  A confirmed delete ends what the dApp
      has on the function, and a grant puts the function under the id it names, until as long after
      now as was asked for.  No other function is touched. */
  lemma ReceiveExactly(app: App, r: Response, now: nat, f: nat)
    ensures var app' := Receive(app, r, now);
            && app'.calls == app.calls && app'.ranGone == app.ranGone && app'.held.dappId == app.held.dappId
            && (app.held.dappId != Some(r.dapp) || r.requestId !in app.pending ==> app' == app)
            && (app.held.dappId == Some(r.dapp) && r.requestId in app.pending ==>
                  var op := app.pending[r.requestId];
                  && app'.pending == app.pending - {r.requestId}
                  && (!r.positive ==> app'.held == app.held)
                  && (f != op.ranFunction ==>
                        && (f in app'.held.rfToSub <==> f in app.held.rfToSub)
                        && (f in app.held.rfToSub ==> app'.held.rfToSub[f] == app.held.rfToSub[f])
                        && Deadline(app'.held, f) == Deadline(app.held, f))
                  && (r.positive && op.isDelete ==> op.ranFunction !in app'.held.rfToSub)
                  && (r.positive && op.isDelete && op.ranFunction in app.held.rfToSub ==> Deadline(app'.held, op.ranFunction) == None)
                  && (r.positive && !op.isDelete && r.id.Some? ==>
                        && op.ranFunction in app'.held.rfToSub && app'.held.rfToSub[op.ranFunction] == r.id.value
                        && Deadline(app'.held, op.ranFunction) ==
                             if ValueOr(op.seconds, 0) > 0 then Some(now + ValueOr(op.seconds, 0) * SECOND) else None))
  {
  }

  /** Asking, for a subscription or for the end of one, takes the next message id and, if the
      message is queued, is pending under that id and no other.  Without an id of its own the dApp
      asks for nothing, and it asks for the end of nothing it does not hold. */
  lemma AskingExactly(app: App, rf: nat, seconds: Option<nat>, isDelete: bool, queued: bool, id: nat)
    ensures var app' := if isDelete then Delete(app, rf, queued) else Request(app, rf, seconds, queued);
            var asks := app.held.dappId.Some? && (isDelete ==> rf in app.held.rfToSub);
            && app'.held == app.held && app'.ranGone == app.ranGone
            && (!asks ==> app' == app)
            && (asks ==> app'.calls == app.calls + 1)
            && (asks && id != MessageId(app.calls) ==>
                  && (id in app'.pending <==> id in app.pending)
                  && (id in app.pending ==> app'.pending[id] == app.pending[id]))
            && (asks && id == MessageId(app.calls) ==>
                  && (id in app'.pending <==> queued)
                  && (queued ==> app'.pending[id].ranFunction == rf && app'.pending[id].isDelete == isDelete)
                  && (queued && !isDelete ==> app'.pending[id].seconds == seconds))
  {
  }

  /** Only a positive setup answer names the dApp; the end of a session, however it comes, leaves
      no name, no subscription and no open request, and takes back no message id. */
  lemma SessionsEndExactly(app: App, dapp: nat)
    ensures SetupAnswered(app, Some(dapp), true).held.dappId == Some(dapp)
    ensures SetupAnswered(app, Some(dapp), false) == app
    ensures forall app' :: app' in {if app.ranGone then Restart(app) else RanGone(app), Restart(app)} ==>
              && app'.held.dappId == None && app'.held.rfToSub == map[] && app'.held.subToRf == map[] && app'.held.expiry == map[]
              && app'.pending == map[] && app'.calls == app.calls
    ensures RanGone(RanGone(app)) == RanGone(app) && !Restart(app).ranGone && RanGone(app).ranGone
  {
  }

  // --------------------------------------------------------------------- the machine

  datatype Action =
    | DoRequest(ranFunction: nat, seconds: Option<nat>, queued: bool)
    | DoDelete(ranFunction: nat, queued: bool)
    | DoOther
    | DoReceive(response: Response)
    | DoExpire
    | DoSetupAnswered(dapp: Option<nat>, positive: bool)
    | DoRanGone
    | DoRestart

  /** What was asked under the n-th message id, and in which session. */
  datatype Issue = Issue(ranFunction: nat, isDelete: bool, session: nat)

  /** Which request, by number, and which response put a held function there, and the id the dApp
      had then. */
  datatype Grant = Grant(number: nat, response: Response, dapp: nat)

  /** The dApp with the history the claims are about; no step of the dApp reads the other fields.
      `numbers` says which request is pending under an id. */
  datatype Trace = Trace(
    app: App,
    session: nat,
    issued: map<nat, Issue>,
    numbers: map<nat, nat>,
    grants: map<nat, Grant>,
    answered: set<nat>)

  const BEGIN: Trace := Trace(FRESH, 0, map[], map[], map[], {})

  /** Whether a response is attributed to a pending request. */
  predicate Attributed(app: App, r: Response) {
    app.held.dappId == Some(r.dapp) && r.requestId in app.pending
  }

  /** The history when request number `calls` goes out. */
  function Issued(s: Trace, app: App, rf: nat, isDelete: bool): Trace {
    s.(app := app,
       issued := s.issued[s.app.calls := Issue(rf, isDelete, s.session)],
       numbers := s.numbers[NextId(s.app) := s.app.calls])
  }

  function Step(s: Trace, a: Action, now: nat): Trace {
    match a
    case DoRequest(rf, seconds, queued) =>
      var app := Request(s.app, rf, seconds, queued);
      if s.app.held.dappId.Some? && queued then Issued(s, app, rf, false) else s.(app := app)
    case DoDelete(rf, queued) =>
      var app := Delete(s.app, rf, queued);
      if s.app.held.dappId.Some? && rf in s.app.held.rfToSub && queued then Issued(s, app, rf, true) else s.(app := app)
    case DoOther => s.(app := OtherMessage(s.app))
    case DoReceive(r) => ReceiveStep(s, r, now)
    case DoExpire => s.(app := s.app.(held := ExpireAt(s.app.held, now)))
    case DoSetupAnswered(dapp, positive) => s.(app := SetupAnswered(s.app, dapp, positive))
    case DoRanGone => s.(app := RanGone(s.app), session := s.session + if s.app.ranGone then 0 else 1)
    case DoRestart => s.(app := Restart(s.app), session := s.session + 1)
  }

  function ReceiveStep(s: Trace, r: Response, now: nat): Trace {
    if !Attributed(s.app, r) || r.requestId !in s.numbers then s.(app := Receive(s.app, r, now))
    else
      var op, number := s.app.pending[r.requestId], s.numbers[r.requestId];
      s.(app := Receive(s.app, r, now),
         grants := if r.positive && !op.isDelete && r.id.Some?
                   then s.grants[op.ranFunction := Grant(number, r, ValueOr(s.app.held.dappId, 0))] else s.grants,
         answered := s.answered + {number})
  }

  ghost predicate IsRun(states: seq<Trace>, actions: seq<Action>, times: seq<nat>) {
    && |states| == |actions| + 1 == |times| + 1
    && states[0] == BEGIN
    && (forall i :: 0 <= i < |actions| ==> states[i + 1] == Step(states[i], actions[i], times[i]))
  }

  // ------------------------------------------------------------------- the invariant

  /** A pending entry is the still unanswered request that carried its id. */
  ghost predicate PendingOk(s: Trace, id: nat)
    requires id in s.app.pending
  {
    && id in s.numbers
    && var n := s.numbers[id];
    && n in s.issued && n !in s.answered && MessageId(n) == id
    && s.issued[n] == Issue(s.app.pending[id].ranFunction, s.app.pending[id].isDelete, s.session)
  }

  /** A held function was granted, under the id held, by a positive response, addressed to this
      dApp, to a request for that same function issued in this session. */
  ghost predicate HeldOk(s: Trace, rf: nat)
    requires rf in s.app.held.rfToSub
  {
    && rf in s.grants
    && var g := s.grants[rf];
    && g.number in s.issued && g.number in s.answered
    && s.issued[g.number] == Issue(rf, false, s.session)
    && g.response.positive && g.response.requestId == MessageId(g.number) && g.response.dapp == g.dapp
    && g.response.id == Some(s.app.held.rfToSub[rf])
  }

  ghost predicate SessionInv(s: Trace) {
    && (forall n :: n in s.issued ==> n < s.app.calls)
    && (forall n :: n in s.answered ==> n < s.app.calls)
    && (forall id :: id in s.app.pending ==> PendingOk(s, id))
    && (forall rf :: rf in s.app.held.rfToSub ==> HeldOk(s, rf))
  }

  lemma ReceiveKeepsInv(s: Trace, r: Response, now: nat)
    requires SessionInv(s)
    ensures SessionInv(ReceiveStep(s, r, now))
  {
    var s' := ReceiveStep(s, r, now);
    if Attributed(s.app, r) {
      assert PendingOk(s, r.requestId);
      forall id | id in s'.app.pending ensures PendingOk(s', id) {
        assert PendingOk(s, id);
      }
      forall rf | rf in s'.app.held.rfToSub ensures HeldOk(s', rf) {
        assert rf in s.app.held.rfToSub ==> HeldOk(s, rf);
      }
    }
  }

  lemma IssueKeepsInv(s: Trace, op: Pending, s': Trace)
    requires SessionInv(s)
    requires s' == Issued(s, s.app.(calls := s.app.calls + 1, pending := s.app.pending[NextId(s.app) := op]),
                          op.ranFunction, op.isDelete)
    ensures SessionInv(s')
  {
    forall id | id in s'.app.pending ensures PendingOk(s', id) {
      if id != NextId(s.app) { assert PendingOk(s, id); }
    }
    forall rf | rf in s'.app.held.rfToSub ensures HeldOk(s', rf) {
      assert HeldOk(s, rf);
    }
  }

  /** A step that hands out an id, or only forgets, keeps the invariant. */
  lemma ShrinkKeepsInv(s: Trace, s': Trace)
    requires SessionInv(s) && s'.app.calls >= s.app.calls
    requires s' == s.(app := s'.app)
    requires s'.app.pending.Keys <= s.app.pending.Keys
    requires forall id :: id in s'.app.pending ==> s'.app.pending[id] == s.app.pending[id]
    requires s'.app.held.rfToSub.Keys <= s.app.held.rfToSub.Keys
    requires forall rf :: rf in s'.app.held.rfToSub ==> s'.app.held.rfToSub[rf] == s.app.held.rfToSub[rf]
    ensures SessionInv(s')
  {
    forall id | id in s'.app.pending ensures PendingOk(s', id) {
      assert PendingOk(s, id);
    }
    forall rf | rf in s'.app.held.rfToSub ensures HeldOk(s', rf) {
      assert HeldOk(s, rf);
    }
  }

  lemma StepKeepsInv(s: Trace, a: Action, now: nat)
    requires SessionInv(s)
    ensures SessionInv(Step(s, a, now))
  {
    var s' := Step(s, a, now);
    match a
    case DoRequest(rf, seconds, queued) =>
      if s.app.held.dappId.Some? && queued {
        IssueKeepsInv(s, Pending(rf, false, seconds), s');
      } else {
        ShrinkKeepsInv(s, s');
      }
    case DoDelete(rf, queued) =>
      if s.app.held.dappId.Some? && rf in s.app.held.rfToSub && queued {
        IssueKeepsInv(s, Pending(rf, true, None), s');
      } else {
        ShrinkKeepsInv(s, s');
      }
    case DoOther => ShrinkKeepsInv(s, s');
    case DoReceive(r) => ReceiveKeepsInv(s, r, now);
    case DoExpire => ShrinkKeepsInv(s, s');
    case DoSetupAnswered(_, _) => ShrinkKeepsInv(s, s');
    case DoRanGone =>
    case DoRestart =>
  }

  lemma {:induction false} RunInv(states: seq<Trace>, actions: seq<Action>, times: seq<nat>, i: nat)
    requires IsRun(states, actions, times) && i < |states|
    ensures SessionInv(states[i])
    decreases i
  {
    if i > 0 {
      RunInv(states, actions, times, i - 1);
      StepKeepsInv(states[i - 1], actions[i - 1], times[i - 1]);
    }
  }

  // --------------------------------------------------------------------- theorems

  /** However responses are forged, duplicated, reordered or delayed, and however often the
      session restarts: every RAN function the dApp holds was granted by a positive response,
      addressed to the id the dApp had then and carrying the id of a request for that same
      function, issued in the current session. */
  lemma HeldFunctionsWereRequested(states: seq<Trace>, actions: seq<Action>, times: seq<nat>, i: nat, rf: nat)
    requires IsRun(states, actions, times) && i < |states|
    requires rf in states[i].app.held.rfToSub
    ensures HeldOk(states[i], rf)
  {
    RunInv(states, actions, times, i);
  }

  /** As long as at most 2^32 - 1 message ids have been used, that id was carried by no other
      request, of this session or an earlier one: the response cannot be a stale answer to
      something else. */
  lemma GrantsAreUnmistakable(states: seq<Trace>, actions: seq<Action>, times: seq<nat>, i: nat, rf: nat, n: nat)
    requires IsRun(states, actions, times) && i < |states| && states[i].app.calls <= LAP
    requires rf in states[i].app.held.rfToSub && n in states[i].issued
    ensures rf in states[i].grants
    ensures MessageId(n) == states[i].grants[rf].response.requestId <==> n == states[i].grants[rf].number
  {
    RunInv(states, actions, times, i);
    assert HeldOk(states[i], rf);
    FirstLap(n);
    FirstLap(states[i].grants[rf].number);
  }

  lemma CallsGrow(s: Trace, a: Action, now: nat)
    ensures s.app.calls <= Step(s, a, now).app.calls
  {
  }

  lemma {:induction false} CallsGrowAlong(states: seq<Trace>, actions: seq<Action>, times: seq<nat>, i: nat, j: nat)
    requires IsRun(states, actions, times) && i <= j < |states|
    ensures states[i].app.calls <= states[j].app.calls
    decreases j
  {
    if i < j {
      CallsGrowAlong(states, actions, times, i, j - 1);
      CallsGrow(states[j - 1], actions[j - 1], times[j - 1]);
    }
  }

  lemma {:induction false} AnsweredGrows(states: seq<Trace>, actions: seq<Action>, times: seq<nat>, i: nat, j: nat)
    requires IsRun(states, actions, times) && i <= j < |states|
    ensures states[i].answered <= states[j].answered
    decreases j
  {
    if i < j {
      AnsweredGrows(states, actions, times, i, j - 1);
    }
  }

  /** Each request changes the dApp's record at most once: once a response to it has, no later
      response carrying the same request id does, on the first lap of the ids. */
  lemma RequestsActOnce(states: seq<Trace>, actions: seq<Action>, times: seq<nat>, i: nat, j: nat)
    requires IsRun(states, actions, times) && i < j < |actions| && states[j].app.calls <= LAP
    requires actions[i].DoReceive? && actions[j].DoReceive?
    requires actions[i].response.requestId == actions[j].response.requestId
    requires states[i + 1].app.held != states[i].app.held
    ensures states[j + 1].app.held == states[j].app.held
  {
    var id := actions[i].response.requestId;
    CallsGrowAlong(states, actions, times, i, j);
    RunInv(states, actions, times, i);
    RunInv(states, actions, times, j);
    assert PendingOk(states[i], id);
    var n := states[i].numbers[id];
    FirstLap(n);
    assert n in states[i + 1].answered;
    AnsweredGrows(states, actions, times, i + 1, j);
    if id in states[j].app.pending {
      assert PendingOk(states[j], id);
      FirstLap(states[j].numbers[id]);
    }
  }

  // ------------------------------------------------------- why the ids must not repeat

  ghost predicate Reached(s: Trace) {
    exists states, actions, times :: IsRun(states, actions, times) && states[|actions|] == s
  }

  lemma ReachedOn(s: Trace, a: Action, now: nat)
    requires Reached(s)
    ensures Reached(Step(s, a, now))
  {
    var states, actions, times :| IsRun(states, actions, times) && states[|actions|] == s;
    var states', actions', times' := states + [Step(s, a, now)], actions + [a], times + [now];
    assert IsRun(states', actions', times') && states'[|actions'|] == Step(s, a, now);
  }

  lemma ReachedFirst()
    ensures Reached(BEGIN)
  {
    var states, actions: seq<Action>, times: seq<nat> := [BEGIN], [], [];
    assert IsRun(states, actions, times) && states[|actions|] == BEGIN;
  }

  /** Messages of other kinds use up ids and change nothing else. */
  lemma {:induction false} ReachedAfterOthers(s: Trace, k: nat)
    requires Reached(s)
    ensures Reached(s.(app := s.app.(calls := s.app.calls + k)))
  {
    if k > 0 {
      ReachedAfterOthers(s, k - 1);
      ReachedOn(s.(app := s.app.(calls := s.app.calls + k - 1)), DoOther, 0);
    }
  }

  /** A dApp of the second session that has used every id once; request 0, for function 5, went
      out in the first. */
  function Exhausted(): Trace {
    Trace(App(NOTHING.(dappId := Some(1)), map[], LAP, false), 1,
          map[0 := Issue(5, false, 0)], map[1 := 0], map[], {})
  }

  lemma ExhaustedReached()
    ensures Reached(Exhausted())
  {
    FirstLap(0);
    ReachedFirst();
    ReachedOn(BEGIN, DoSetupAnswered(Some(1), true), 0);
    var s1 := Step(BEGIN, DoSetupAnswered(Some(1), true), 0);
    ReachedOn(s1, DoRequest(5, None, true), 0);
    var s2 := Step(s1, DoRequest(5, None, true), 0);
    ReachedOn(s2, DoRestart, 0);
    var s3 := Step(s2, DoRestart, 0);
    ReachedOn(s3, DoSetupAnswered(Some(1), true), 0);
    var s4 := Step(s3, DoSetupAnswered(Some(1), true), 0);
    ReachedAfterOthers(s4, LAP - 1);
  }

  /** One id further, the claim fails.  The answer to the first session's request for function 5
      arrives when its id has come round again under a request for function 7, and the dApp takes
      function 7 for granted. */
  lemma StaleAnswerIsTaken() returns (s: Trace)
    ensures Reached(s) && s.app.calls == LAP + 1
    ensures 7 in s.app.held.rfToSub && 7 in s.grants && s.grants[7].number == LAP
    ensures 0 in s.issued && s.issued[0] == Issue(5, false, 0) && s.session == 1
    ensures MessageId(0) == s.grants[7].response.requestId
  {
    var stale := Response(1, 1, true, Some(9), None);
    var s0 := Exhausted();
    ExhaustedReached();
    ReachedOn(s0, DoRequest(7, None, true), 0);
    var s1 := Step(s0, DoRequest(7, None, true), 0);
    assert NextId(s0.app) == 1;
    ReachedOn(s1, DoReceive(stale), 0);
    s := Step(s1, DoReceive(stale), 0);
  }
}
