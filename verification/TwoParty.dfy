/** The dApp and the RAN together: requests travel one way, responses the other, on one time
    line, within one session of the dApp.

    Requests in flight are delivered at most once, in any order, or never.  Responses, once
    sent, can arrive at any later time, any number of times, in any order. */
module TwoParty {
  import opened Options
  import opened SubscriptionSpec
  import opened SubscriptionTheorems
  import opened E3Messages
  import opened DAppState
  import opened DAppSession
  import opened RanAnswers

  datatype Up =
    | UpRequest(id: nat, req: SubscriptionRequest)
    | UpDelete(id: nat, del: SubscriptionDelete)

  datatype World = World(
    now: nat,
    me: nat,
    models: Registry,
    ran: Spec,
    app: App,
    up: set<Up>,
    down: set<Response>)

  datatype Move =
    | Tick(passed: nat)
    | AppRequest(req: SubscriptionRequest)
    | AppDelete(ranFunction: nat)
    | AppOther
    | AppExpire
    | AppReceive(response: Response)
    | RanHandle(message: Up)
    | RanSweep
    | RanOther

  /** The dApp's subscription to a function, as the RAN has it, has ended or never was. */
  ghost predicate Dead(w: World, rf: nat) {
    (w.me, rf) in w.ran.subs ==> IsExpired(w.ran.subs[(w.me, rf)].details, w.now)
  }

  /** The RAN keeps, of this dApp's subscriptions, at most what it had. */
  ghost predicate OnlyLess(w: World, ran: Spec) {
    && WellFormed(ran)
    && forall rf: nat :: (w.me, rf) in ran.subs ==>
         (w.me, rf) in w.ran.subs && ran.subs[(w.me, rf)] == w.ran.subs[(w.me, rf)]
  }

  /** The responses that have come are for others. */
  ghost predicate NoneForMe(w: World, w': World) {
    forall r :: r in w'.down && r.dapp == w.me ==> r in w.down
  }

  ghost function Handled(w: World, m: Up): Answer {
    match m
    case UpRequest(id, req) => AnswerRequest(w.ran, w.models, req, id, w.now)
    case UpDelete(id, del) => AnswerDelete(w.ran, del, id)
  }

  ghost predicate Step(w: World, a: Move, w': World) {
    match a
    case Tick(passed) => w' == w.(now := w.now + passed)
    case AppRequest(req) =>
      && req.dapp == w.me && w.app.calls < LAP
      && w' == w.(app := Request(w.app, req.ranFunction, req.seconds, true), up := w.up + {UpRequest(NextId(w.app), req)})
    case AppDelete(rf) =>
      && rf in w.app.held.rfToSub && w.app.calls < LAP
      && w' == w.(app := Delete(w.app, rf, true),
                  up := w.up + {UpDelete(NextId(w.app), SubscriptionDelete(w.me, w.app.held.rfToSub[rf]))})
    case AppOther => w.app.calls < LAP && w' == w.(app := OtherMessage(w.app))
    case AppExpire => w' == w.(app := w.app.(held := ExpireAt(w.app.held, w.now)))
    case AppReceive(r) => r in w.down && w' == w.(app := Receive(w.app, r, w.now))
    case RanHandle(m) =>
      m in w.up && w' == w.(ran := Handled(w, m).after, up := w.up - {m}, down := w.down + {Handled(w, m).response})
    case RanSweep => w' == w.(ran := w'.ran) && Sweep(w.ran, w.now, w'.ran)
    case RanOther =>
      // anything done for other dApps; their responses reach this one too, with any request ids
      && w' == w.(ran := w'.ran, down := w'.down) && OnlyLess(w, w'.ran)
      && w.down <= w'.down && NoneForMe(w, w')
      && forall rf: nat :: (w.me, rf) in w.ran.subs ==> (w.me, rf) in w'.ran.subs
  }

  ghost predicate Starts(w: World) {
    && WellFormed(w.ran) && (forall rf: nat :: (w.me, rf) !in w.ran.subs)
    && w.app == App(NOTHING.(dappId := Some(w.me)), map[], w.app.calls, false) && w.app.calls <= LAP
    && w.up == {} && w.down == {}
  }

  /** `early` ends no later than `late`; an absent deadline never comes. */
  predicate NoLater(early: Option<nat>, late: Option<nat>) {
    late.None? || (early.Some? && early.value <= late.value)
  }

  /** The end of a subscription that starts now; a length of zero, or none, is no limit. */
  function EndFrom(seconds: Option<nat>, now: nat): Option<nat> {
    if ValueOr(seconds, 0) > 0 then Some(now + ValueOr(seconds, 0) * SECOND) else None
  }

  /** No request about the function is open; deletes do not matter. */
  ghost predicate Quiet(w: World, rf: nat) {
    forall id :: id in w.app.pending ==> w.app.pending[id].isDelete || w.app.pending[id].ranFunction != rf
  }

  ghost predicate Untouched(w: World, rf: nat) {
    forall id :: id in w.app.pending ==> w.app.pending[id].ranFunction != rf
  }

  /** A dApp that asks again for a function it holds only if the new end, counted from now, is no
      earlier than its own deadline; and one thing at a time: no request while anything about the
      function is open, no delete while a request is.  All of it the dApp can see. */
  ghost predicate Careful(w: World, a: Move) {
    && (a.AppRequest? ==>
          && Untouched(w, a.req.ranFunction)
          && (a.req.ranFunction in w.app.held.rfToSub ==>
                NoLater(Deadline(w.app.held, a.req.ranFunction), EndFrom(a.req.seconds, w.now))))
    && (a.AppDelete? ==> Quiet(w, a.ranFunction))
  }

  /** A dApp that does not ask again at all for a function it holds or has open business about. */
  ghost predicate Disciplined(w: World, a: Move) {
    a.AppRequest? ==> a.req.ranFunction !in w.app.held.rfToSub && Untouched(w, a.req.ranFunction)
  }

  ghost predicate IsRun(worlds: seq<World>, moves: seq<Move>) {
    && |worlds| == |moves| + 1
    && Starts(worlds[0])
    && forall i :: 0 <= i < |moves| ==> Step(worlds[i], moves[i], worlds[i + 1])
  }

  ghost predicate CarefulRun(worlds: seq<World>, moves: seq<Move>) {
    IsRun(worlds, moves) && forall i :: 0 <= i < |moves| ==> Careful(worlds[i], moves[i])
  }

  ghost predicate DisciplinedRun(worlds: seq<World>, moves: seq<Move>) {
    IsRun(worlds, moves) && forall i :: 0 <= i < |moves| ==> Disciplined(worlds[i], moves[i])
  }

  // ------------------------------------------------------------------- the invariant

  function SentIds(up: set<Up>): set<nat> {
    set m | m in up :: m.id
  }

  ghost predicate IdsOk(w: World) {
    && w.app.held.dappId == Some(w.me) && w.app.calls <= LAP
    && (forall id :: id in w.app.pending ==> 1 <= id <= w.app.calls)
    && (forall r :: r in w.down && r.dapp == w.me ==> 1 <= r.requestId <= w.app.calls)
  }

  ghost predicate UpOk(w: World, m: Up) {
    && 1 <= m.id <= w.app.calls && m.id in w.app.pending
    && var op := w.app.pending[m.id];
    && (match m
        case UpRequest(_, req) => req.dapp == w.me && op == Pending(req.ranFunction, false, req.seconds)
        case UpDelete(_, del) =>
          && op.isDelete && del.dapp == w.me
          && (op.ranFunction in w.app.held.rfToSub ==> del.id == w.app.held.rfToSub[op.ranFunction]))
    && (forall r :: r in w.down && r.dapp == w.me ==> r.requestId != m.id)
    && (forall m' :: m' in w.up && m'.id == m.id ==> m' == m)
  }

  /** An open request is the only open business about its function. */
  ghost predicate AloneOk(w: World, id: nat)
    requires id in w.app.pending
  {
    !w.app.pending[id].isDelete ==>
      forall j :: j in w.app.pending && j != id ==> w.app.pending[j].ranFunction != w.app.pending[id].ranFunction
  }

  /** What the dApp holds and the RAN still has is one subscription, with the RAN's end no later. */
  ghost predicate InStep(w: World, rf: nat)
    requires rf in w.app.held.rfToSub
  {
    (w.me, rf) in w.ran.subs ==>
      && w.ran.subs[(w.me, rf)].id == w.app.held.rfToSub[rf]
      && NoLater(w.ran.subs[(w.me, rf)].details.expires, Deadline(w.app.held, rf))
  }

  /** The two sides agree about a function: in step if it is held, over if it is not. */
  ghost predicate Settled(w: World, rf: nat) {
    if rf in w.app.held.rfToSub then InStep(w, rf) else Dead(w, rf)
  }

  /** What the RAN has ends no later than a subscription the dApp would start now. */
  ghost predicate Covered(w: World, op: Pending) {
    (w.me, op.ranFunction) in w.ran.subs ==>
      NoLater(w.ran.subs[(w.me, op.ranFunction)].details.expires, EndFrom(op.seconds, w.now))
  }

  /** What a response to a request still open says about the RAN. */
  ghost predicate Matches(w: World, op: Pending, r: Response) {
    if r.positive && r.id.Some? then
      && Covered(w, op)
      && ((w.me, op.ranFunction) in w.ran.subs ==> w.ran.subs[(w.me, op.ranFunction)].id == r.id.value)
    else Settled(w, op.ranFunction)
  }

  ghost predicate OpenOk(w: World, id: nat)
    requires id in w.app.pending
  {
    var op := w.app.pending[id];
    if op.isDelete then
      op.ranFunction in w.app.held.rfToSub && id !in SentIds(w.up) ==> (w.me, op.ranFunction) !in w.ran.subs
    else if id in SentIds(w.up) then Settled(w, op.ranFunction) && Covered(w, op)
    else forall r :: r in w.down && r.dapp == w.me && r.requestId == id ==> Matches(w, op, r)
  }

  /** Without an open request the two sides agree. */
  ghost predicate QuietOk(w: World, rf: nat) {
    Quiet(w, rf) ==> Settled(w, rf)
  }

  ghost predicate Inv(w: World) {
    && WellFormed(w.ran) && IdsOk(w)
    && (forall m :: m in w.up ==> UpOk(w, m))
    && (forall id :: id in w.app.pending ==> AloneOk(w, id))
    && (forall id :: id in w.app.pending ==> OpenOk(w, id))
    && (forall rf: nat :: QuietOk(w, rf))
  }

  // ----------------------------------------------------- when the facts about a function last

  /** Time moves on, the RAN drops some of this dApp's subscriptions, others get responses. */
  ghost predicate Wanes(w: World, w': World) {
    w' == w.(now := w'.now, ran := w'.ran, down := w'.down) && w'.now >= w.now && OnlyLess(w, w'.ran) && NoneForMe(w, w')
  }

  lemma WaningKeepsFacts(w: World, w': World, op: Pending)
    requires Wanes(w, w')
    ensures Settled(w, op.ranFunction) ==> Settled(w', op.ranFunction)
    ensures Covered(w, op) ==> Covered(w', op)
    ensures forall r :: Matches(w, op, r) ==> Matches(w', op, r)
  {
  }

  /** Nothing changes for a function on either side. */
  ghost predicate SameFor(w: World, w': World, rf: nat) {
    && w'.now == w.now && w'.me == w.me
    && (rf in w'.app.held.rfToSub <==> rf in w.app.held.rfToSub)
    && (rf in w.app.held.rfToSub ==> w'.app.held.rfToSub[rf] == w.app.held.rfToSub[rf])
    && Deadline(w'.app.held, rf) == Deadline(w.app.held, rf)
    && ((w.me, rf) in w'.ran.subs <==> (w.me, rf) in w.ran.subs)
    && ((w.me, rf) in w.ran.subs ==> w'.ran.subs[(w.me, rf)] == w.ran.subs[(w.me, rf)])
  }

  lemma SameKeepsFacts(w: World, w': World, op: Pending)
    requires SameFor(w, w', op.ranFunction)
    ensures Settled(w, op.ranFunction) ==> Settled(w', op.ranFunction)
    ensures Covered(w, op) ==> Covered(w', op)
    ensures forall r :: Matches(w, op, r) ==> Matches(w', op, r)
  {
  }

  /** The dApp forgets what is due, and that is over at the RAN as well. */
  lemma ExpiryKeepsFacts(w: World, w': World, op: Pending)
    requires w' == w.(app := w.app.(held := ExpireAt(w.app.held, w.now)))
    ensures Settled(w, op.ranFunction) ==> Settled(w', op.ranFunction)
    ensures Covered(w, op) ==> Covered(w', op)
    ensures forall r :: Matches(w, op, r) ==> Matches(w', op, r)
  {
    var rf := op.ranFunction;
    if rf in DueAt(w.app.held, w.now) {
      assert rf !in w'.app.held.rfToSub;
      assert rf in w.app.held.rfToSub && InStep(w, rf) ==> Dead(w, rf);
    } else {
      assert SameFor(w, w', rf);
      SameKeepsFacts(w, w', op);
    }
  }

  /** Open business stays in order when its facts last and neither set of messages changes for
      it. */
  lemma OpenLasts(w: World, w': World, id: nat)
    requires id in w.app.pending && id in w'.app.pending && w'.app.pending[id] == w.app.pending[id] && OpenOk(w, id)
    requires w'.me == w.me && (id in SentIds(w'.up) <==> id in SentIds(w.up))
    requires forall r :: r in w'.down && r.dapp == w.me && r.requestId == id ==> r in w.down
    requires var op := w.app.pending[id];
             if op.isDelete then
               && (op.ranFunction in w'.app.held.rfToSub ==> op.ranFunction in w.app.held.rfToSub)
               && ((w.me, op.ranFunction) in w'.ran.subs ==> (w.me, op.ranFunction) in w.ran.subs)
             else
               && (Settled(w, op.ranFunction) ==> Settled(w', op.ranFunction))
               && (Covered(w, op) ==> Covered(w', op))
               && forall r :: Matches(w, op, r) ==> Matches(w', op, r)
    ensures OpenOk(w', id)
  {
  }

  function About(rf: nat): Pending {
    Pending(rf, false, None)
  }

  // -------------------------------------------------- time passes, the RAN forgets

  lemma WaningKeepsInv(w: World, w': World)
    requires Inv(w) && Wanes(w, w')
    ensures Inv(w')
  {
    forall m | m in w'.up ensures UpOk(w', m) { assert UpOk(w, m); }
    forall id | id in w'.app.pending ensures AloneOk(w', id) && OpenOk(w', id) {
      assert AloneOk(w, id) && OpenOk(w, id);
      WaningKeepsFacts(w, w', w.app.pending[id]);
      OpenLasts(w, w', id);
    }
    forall rf: nat ensures QuietOk(w', rf) {
      assert QuietOk(w, rf);
      WaningKeepsFacts(w, w', About(rf));
    }
  }

  lemma SweepIsLess(w: World, ran: Spec)
    requires WellFormed(w.ran) && Sweep(w.ran, w.now, ran)
    ensures OnlyLess(w, ran)
  {
    StepKeepsWellFormed(w.ran, DoSweep(w.now), ran);
  }

  lemma DeleteIsLess(w: World, id: nat, del: SubscriptionDelete)
    requires WellFormed(w.ran)
    ensures OnlyLess(w, AnswerDelete(w.ran, del, id).after)
  {
    StepKeepsWellFormed(w.ran, DoRemoveById(del.dapp, del.id), RemoveById(w.ran, del.dapp, del.id).after);
  }

  // ------------------------------------------------------------- a message is delivered

  /** The RAN has answered `m` with `r`: the message is no longer in flight. */
  function Delivered(w: World, m: Up, r: Response): World {
    w.(up := w.up - {m}, down := w.down + {r})
  }

  lemma SentAfter(w: World, m: Up)
    requires m in w.up && UpOk(w, m)
    ensures SentIds(w.up - {m}) == SentIds(w.up) - {m.id}
  {
    forall id | id in SentIds(w.up) && id != m.id ensures id in SentIds(w.up - {m}) {
      var m' :| m' in w.up && m'.id == id;
      assert m' in w.up - {m};
    }
  }

  lemma DeliverKeepsUp(w: World, m: Up, r: Response)
    requires m in w.up && r.requestId == m.id && forall x :: x in w.up ==> UpOk(w, x)
    ensures forall x :: x in w.up - {m} ==> UpOk(Delivered(w, m, r), x)
  {
    forall x | x in w.up - {m} ensures UpOk(Delivered(w, m, r), x) { assert UpOk(w, x) && UpOk(w, m); }
  }

  /** Delivering the answer to `m` keeps the invariant if its own business is in order then. */
  lemma DeliverKeepsInv(w: World, m: Up, r: Response)
    requires Inv(w) && m in w.up && r.requestId == m.id && m.id in w.app.pending
    requires OpenOk(Delivered(w, m, r), m.id)
    ensures Inv(Delivered(w, m, r))
  {
    var w' := Delivered(w, m, r);
    assert UpOk(w, m);
    SentAfter(w, m);
    DeliverKeepsUp(w, m, r);
    forall id | id in w'.app.pending ensures AloneOk(w', id) && OpenOk(w', id) {
      assert AloneOk(w, id) && OpenOk(w, id);
      if id != m.id {
        SameKeepsFacts(w, w', w.app.pending[id]);
        OpenLasts(w, w', id);
      }
    }
    forall rf: nat ensures QuietOk(w', rf) {
      assert QuietOk(w, rf);
      SameKeepsFacts(w, w', About(rf));
    }
  }

  lemma DeleteHasQuiet(w: World, id: nat)
    requires Inv(w) && id in w.app.pending && w.app.pending[id].isDelete
    ensures Quiet(w, w.app.pending[id].ranFunction) && Settled(w, w.app.pending[id].ranFunction)
  {
    forall j | j in w.app.pending && !w.app.pending[j].isDelete
      ensures w.app.pending[j].ranFunction != w.app.pending[id].ranFunction
    {
      assert AloneOk(w, j);
    }
    assert QuietOk(w, w.app.pending[id].ranFunction);
  }

  lemma HandleDeleteKeepsInv(w: World, m: Up)
    requires Inv(w) && m in w.up && m.UpDelete?
    ensures Inv(w.(ran := Handled(w, m).after, up := w.up - {m}, down := w.down + {Handled(w, m).response}))
  {
    assert UpOk(w, m);
    var rf, r := w.app.pending[m.id].ranFunction, Handled(w, m).response;
    DeleteIsLess(w, m.id, m.del);
    var w1 := w.(ran := Handled(w, m).after);
    WaningKeepsInv(w, w1);
    if rf in w.app.held.rfToSub {
      DeleteHasQuiet(w, m.id);
      DeletesStayWithinTheDapp(w.ran, m.del, m.id, rf);
      assert (w.me, rf) in w.ran.subs ==> Owns(w.ran, w.me, rf, m.del.id);
    }
    assert OpenOk(Delivered(w1, m, r), m.id);
    DeliverKeepsInv(w1, m, r);
  }

  // -------------------------------------------------------- the RAN handles a request

  /** What a granted add leaves for the pair, and what it answers. */
  lemma AddGives(a: Spec, d: nat, r: nat, details: Details, now: nat)
    ensures var o := Add(a, d, r, details, now);
            && (o.code == Success ==> (d, r) in o.after.subs && o.after.subs[(d, r)] == Entry(o.id, details))
            && (o.code == SubscriptionExists ==> o.after == a && (d, r) in a.subs && a.subs[(d, r)].id == o.id)
            && (o.code != Success && o.code != SubscriptionExists ==> o.after == a)
  {
  }

  lemma AnswerKeepsWellFormed(w: World, m: Up)
    requires WellFormed(w.ran) && m.UpRequest?
    ensures WellFormed(Handled(w, m).after)
  {
    AddKeepsWellFormed(w.ran, m.req.dapp, m.req.ranFunction, Requested(m.req, w.now), w.now);
  }

  lemma GrantMatches(w: World, m: Up, op: Pending)
    requires m.UpRequest? && m.req.dapp == w.me && Handled(w, m).response.positive
    requires op == Pending(m.req.ranFunction, false, m.req.seconds) && Covered(w, op)
    ensures Handled(w, m).response.id.Some? && Matches(w.(ran := Handled(w, m).after), op, Handled(w, m).response)
  {
    var o := Add(w.ran, w.me, op.ranFunction, Requested(m.req, w.now), w.now);
    AddGives(w.ran, w.me, op.ranFunction, Requested(m.req, w.now), w.now);
    assert Handled(w, m).after == o.after && Handled(w, m).response.id == Some(o.id);
    assert Requested(m.req, w.now).expires == EndFrom(op.seconds, w.now);
  }

  lemma OtherEntriesStay(w: World, m: Up, rf: nat)
    requires m.UpRequest? && m.req.dapp == w.me && rf != m.req.ranFunction
    ensures SameFor(w, w.(ran := Handled(w, m).after), rf)
  {
  }

  /** The open request and what its answer says are in order once it is delivered. */
  lemma AnswerIsInOrder(w: World, m: Up)
    requires Inv(w) && m in w.up && m.UpRequest?
    ensures var ans := Handled(w, m);
            && m.id in w.app.pending && ans.response.requestId == m.id && WellFormed(ans.after)
            && Matches(w.(ran := ans.after), w.app.pending[m.id], ans.response)
  {
    assert UpOk(w, m) && OpenOk(w, m.id) && m.id in SentIds(w.up);
    AnswerKeepsWellFormed(w, m);
    var op := w.app.pending[m.id];
    if Handled(w, m).response.positive {
      GrantMatches(w, m, op);
    } else {
      AnswersAreExact(w.ran, w.models, m.req, m.id, w.now);
      SameKeepsFacts(w, w.(ran := Handled(w, m).after), op);
    }
  }

  lemma HandledOpen(w: World, m: Up, w': World, id: nat)
    requires Inv(w) && m in w.up && m.UpRequest? && id in w.app.pending && id != m.id
    requires w' == w.(ran := Handled(w, m).after, up := w.up - {m}, down := w.down + {Handled(w, m).response})
    requires Handled(w, m).response.requestId == m.id
    ensures OpenOk(w', id)
  {
    assert UpOk(w, m) && AloneOk(w, m.id) && OpenOk(w, id);
    SentAfter(w, m);
    OtherEntriesStay(w, m, w.app.pending[id].ranFunction);
    SameKeepsFacts(w, w', w.app.pending[id]);
    OpenLasts(w, w', id);
  }

  lemma HandledAnswered(w: World, m: Up, w': World)
    requires Inv(w) && m in w.up && m.UpRequest?
    requires w' == w.(ran := Handled(w, m).after, up := w.up - {m}, down := w.down + {Handled(w, m).response})
    ensures m.id in w'.app.pending && OpenOk(w', m.id)
  {
    assert UpOk(w, m);
    AnswerIsInOrder(w, m);
    SentAfter(w, m);
    var op, r := w.app.pending[m.id], Handled(w, m).response;
    SameKeepsFacts(w.(ran := Handled(w, m).after), w', op);
    forall x | x in w'.down && x.dapp == w.me && x.requestId == m.id ensures Matches(w', op, x) {
      assert x == r;
    }
  }

  lemma HandledQuiet(w: World, m: Up, w': World, rf: nat)
    requires Inv(w) && m in w.up && m.UpRequest?
    requires w' == w.(ran := Handled(w, m).after, up := w.up - {m}, down := w.down + {Handled(w, m).response})
    ensures QuietOk(w', rf)
  {
    assert UpOk(w, m) && QuietOk(w, rf);
    if rf != m.req.ranFunction {
      OtherEntriesStay(w, m, rf);
      SameKeepsFacts(w, w', About(rf));
    } else {
      assert !Quiet(w', rf);
    }
  }

  lemma HandleRequestKeepsInv(w: World, m: Up)
    requires Inv(w) && m in w.up && m.UpRequest?
    ensures Inv(w.(ran := Handled(w, m).after, up := w.up - {m}, down := w.down + {Handled(w, m).response}))
  {
    var ans := Handled(w, m);
    var w' := w.(ran := ans.after, up := w.up - {m}, down := w.down + {ans.response});
    AnswerIsInOrder(w, m);
    assert UpOk(w, m);
    DeliverKeepsUp(w, m, ans.response);
    forall x | x in w'.up ensures UpOk(w', x) { assert UpOk(Delivered(w, m, ans.response), x); }
    forall id | id in w'.app.pending ensures AloneOk(w', id) { assert AloneOk(w, id); }
    forall id | id in w'.app.pending ensures OpenOk(w', id) {
      if id == m.id { HandledAnswered(w, m, w'); } else { HandledOpen(w, m, w', id); }
    }
    forall rf: nat ensures QuietOk(w', rf) { HandledQuiet(w, m, w', rf); }
  }

  // ---------------------------------------------------------------- the dApp moves

  lemma OtherKeepsInv(w: World)
    requires Inv(w) && w.app.calls < LAP
    ensures Inv(w.(app := OtherMessage(w.app)))
  {
    var w' := w.(app := OtherMessage(w.app));
    forall m | m in w'.up ensures UpOk(w', m) { assert UpOk(w, m); }
    forall id | id in w'.app.pending ensures AloneOk(w', id) && OpenOk(w', id) {
      assert AloneOk(w, id) && OpenOk(w, id);
      SameKeepsFacts(w, w', w.app.pending[id]);
      OpenLasts(w, w', id);
    }
    forall rf: nat ensures QuietOk(w', rf) {
      assert QuietOk(w, rf);
      SameKeepsFacts(w, w', About(rf));
    }
  }

  /** A request or a delete goes out under an id nothing else carries. */
  lemma NewIdIsUnused(w: World)
    requires Inv(w) && w.app.calls < LAP
    ensures NextId(w.app) == w.app.calls + 1
    ensures NextId(w.app) !in w.app.pending && NextId(w.app) !in SentIds(w.up)
    ensures forall r :: r in w.down && r.dapp == w.me ==> r.requestId != NextId(w.app)
  {
    FirstLap(w.app.calls);
    forall m | m in w.up ensures m.id != NextId(w.app) { assert UpOk(w, m); }
  }

  /** The world after the dApp sent `m` about `op`. */
  function Sent(w: World, op: Pending, m: Up): World {
    w.(app := w.app.(calls := w.app.calls + 1, pending := w.app.pending[m.id := op]), up := w.up + {m})
  }

  lemma SentQuiet(w: World, op: Pending, m: Up, rf: nat)
    requires QuietOk(w, rf) && m.id !in w.app.pending
    ensures QuietOk(Sent(w, op, m), rf)
  {
    var w' := Sent(w, op, m);
    assert forall id :: id in w.app.pending ==> id in w'.app.pending && w'.app.pending[id] == w.app.pending[id];
    SameKeepsFacts(w, w', About(rf));
  }

  lemma SendKeepsInv(w: World, op: Pending, m: Up)
    requires Inv(w) && w.app.calls < LAP && m.id == NextId(w.app)
    requires UpOk(Sent(w, op, m), m)
    requires if op.isDelete then Quiet(w, op.ranFunction) else
               Untouched(w, op.ranFunction) && Settled(w, op.ranFunction) && Covered(w, op)
    ensures Inv(Sent(w, op, m))
  {
    var w' := Sent(w, op, m);
    NewIdIsUnused(w);
    assert SentIds(w'.up) == SentIds(w.up) + {m.id};
    forall x | x in w'.up ensures UpOk(w', x) {
      if x != m { assert UpOk(w, x); }
    }
    forall id | id in w'.app.pending ensures AloneOk(w', id) && OpenOk(w', id) {
      if id != m.id { assert AloneOk(w, id) && OpenOk(w, id); }
      SameKeepsFacts(w, w', w'.app.pending[id]);
      if id != m.id { OpenLasts(w, w', id); }
    }
    forall rf: nat ensures QuietOk(w', rf) {
      assert QuietOk(w, rf);
      SentQuiet(w, op, m, rf);
    }
  }

  /** What the dApp's own deadline tells it about the RAN's. */
  lemma OwnDeadlineCovers(w: World, op: Pending)
    requires Settled(w, op.ranFunction)
    requires op.ranFunction in w.app.held.rfToSub ==> NoLater(Deadline(w.app.held, op.ranFunction), EndFrom(op.seconds, w.now))
    ensures Covered(w, op)
  {
  }

  lemma RequestKeepsInv(w: World, req: SubscriptionRequest, w': World)
    requires Inv(w) && Step(w, AppRequest(req), w') && Careful(w, AppRequest(req))
    ensures Inv(w')
  {
    var op := Pending(req.ranFunction, false, req.seconds);
    var m := UpRequest(NextId(w.app), req);
    assert w' == Sent(w, op, m);
    NewIdIsUnused(w);
    assert QuietOk(w, req.ranFunction) && Quiet(w, req.ranFunction);
    OwnDeadlineCovers(w, op);
    SendKeepsInv(w, op, m);
  }

  lemma AppDeleteKeepsInv(w: World, rf: nat, w': World)
    requires Inv(w) && Step(w, AppDelete(rf), w') && Careful(w, AppDelete(rf))
    ensures Inv(w')
  {
    var op := Pending(rf, true, None);
    var m := UpDelete(NextId(w.app), SubscriptionDelete(w.me, w.app.held.rfToSub[rf]));
    assert w' == Sent(w, op, m);
    NewIdIsUnused(w);
    SendKeepsInv(w, op, m);
  }

  lemma ExpireKeepsInv(w: World)
    requires Inv(w)
    ensures Inv(w.(app := w.app.(held := ExpireAt(w.app.held, w.now))))
  {
    var w' := w.(app := w.app.(held := ExpireAt(w.app.held, w.now)));
    forall m | m in w'.up ensures UpOk(w', m) { assert UpOk(w, m); }
    forall id | id in w'.app.pending ensures AloneOk(w', id) && OpenOk(w', id) {
      assert AloneOk(w, id) && OpenOk(w, id);
      ExpiryKeepsFacts(w, w', w.app.pending[id]);
      OpenLasts(w, w', id);
    }
    forall rf: nat ensures QuietOk(w', rf) {
      assert QuietOk(w, rf);
      ExpiryKeepsFacts(w, w', About(rf));
    }
  }

  // ------------------------------------------------------------- a response arrives

  /** A response on its way answers a message no longer in flight. */
  lemma AnsweredIsNotInFlight(w: World, r: Response)
    requires Inv(w) && r in w.down && r.dapp == w.me
    ensures r.requestId !in SentIds(w.up)
  {
    forall m | m in w.up ensures m.id != r.requestId { assert UpOk(w, m); }
  }

  /** The world after a pending entry is used up and the record changed for its function only. */
  ghost predicate Settles(w: World, id: nat, w': World)
    requires id in w.app.pending
  {
    && w' == w.(app := w.app.(pending := w.app.pending - {id}, held := w'.app.held))
    && w'.app.held.dappId == w.app.held.dappId
    && (forall f: nat :: f != w.app.pending[id].ranFunction ==> SameFor(w, w', f))
  }

  lemma SettledOpen(w: World, id: nat, w': World, j: nat)
    requires id in w.app.pending && j in w.app.pending && j != id && OpenOk(w, j) && Settles(w, id, w')
    requires w.app.pending[j].ranFunction == w.app.pending[id].ranFunction ==>
               w.app.pending[j].isDelete && w'.app.held.rfToSub.Keys <= w.app.held.rfToSub.Keys
    ensures OpenOk(w', j)
  {
    if w.app.pending[j].ranFunction != w.app.pending[id].ranFunction {
      SameKeepsFacts(w, w', w.app.pending[j]);
    }
    OpenLasts(w, w', j);
  }

  lemma SettledUp(w: World, id: nat, w': World, m: Up)
    requires id in w.app.pending && id !in SentIds(w.up) && Settles(w, id, w') && AloneOk(w, id)
    requires m in w.up && UpOk(w, m)
    requires w.app.pending[id].isDelete && w.app.pending[id].ranFunction in w'.app.held.rfToSub ==>
               w'.app.held.rfToSub == w.app.held.rfToSub
    ensures UpOk(w', m)
  {
    assert m.id in SentIds(w.up);
    var rf := w.app.pending[m.id].ranFunction;
    assert rf != w.app.pending[id].ranFunction ==> SameFor(w, w', rf);
  }

  lemma SettledQuiet(w: World, id: nat, w': World, rf: nat)
    requires id in w.app.pending && Settles(w, id, w') && QuietOk(w, rf) && rf != w.app.pending[id].ranFunction
    ensures QuietOk(w', rf)
  {
    assert forall j :: j in w.app.pending && j != id ==> j in w'.app.pending && w'.app.pending[j] == w.app.pending[j];
    SameKeepsFacts(w, w', About(rf));
  }

  lemma SettleKeepsInv(w: World, id: nat, w': World)
    requires Inv(w) && id in w.app.pending && id !in SentIds(w.up) && Settles(w, id, w')
    requires QuietOk(w', w.app.pending[id].ranFunction)
    requires w.app.pending[id].isDelete ==>
               && w'.app.held.rfToSub.Keys <= w.app.held.rfToSub.Keys
               && (w.app.pending[id].ranFunction in w'.app.held.rfToSub ==> w'.app.held.rfToSub == w.app.held.rfToSub)
    ensures Inv(w')
  {
    assert AloneOk(w, id);
    forall m | m in w'.up ensures UpOk(w', m) { SettledUp(w, id, w', m); }
    forall j | j in w'.app.pending ensures AloneOk(w', j) && OpenOk(w', j) {
      assert AloneOk(w, j) && OpenOk(w, j);
      SettledOpen(w, id, w', j);
    }
    forall rf: nat ensures QuietOk(w', rf) {
      assert QuietOk(w, rf);
      if rf != w.app.pending[id].ranFunction { SettledQuiet(w, id, w', rf); }
    }
  }

  /** The dApp starts its own clock when the response arrives, so the RAN's end is no later. */
  lemma RequestSettles(w: World, op: Pending, r: Response)
    requires Attributed(w.app, r) && op == w.app.pending[r.requestId] && !op.isDelete && Matches(w, op, r)
    ensures Settled(w.(app := Receive(w.app, r, w.now)), op.ranFunction)
  {
  }

  lemma ReceiveRequestKeepsInv(w: World, r: Response)
    requires Inv(w) && r in w.down && Attributed(w.app, r) && !w.app.pending[r.requestId].isDelete
    ensures Inv(w.(app := Receive(w.app, r, w.now)))
  {
    var w' := w.(app := Receive(w.app, r, w.now));
    var op := w.app.pending[r.requestId];
    AnsweredIsNotInFlight(w, r);
    assert OpenOk(w, r.requestId) && Matches(w, op, r);
    RequestSettles(w, op, r);
    SettleKeepsInv(w, r.requestId, w');
  }

  lemma ReceiveDeleteKeepsInv(w: World, r: Response)
    requires Inv(w) && r in w.down && Attributed(w.app, r) && w.app.pending[r.requestId].isDelete
    ensures Inv(w.(app := Receive(w.app, r, w.now)))
  {
    var w' := w.(app := Receive(w.app, r, w.now));
    var rf := w.app.pending[r.requestId].ranFunction;
    AnsweredIsNotInFlight(w, r);
    DeleteHasQuiet(w, r.requestId);
    assert OpenOk(w, r.requestId);
    assert Settled(w', rf);
    SettleKeepsInv(w, r.requestId, w');
  }

  // --------------------------------------------------------------------------- runs

  lemma StepKeepsInv(w: World, a: Move, w': World)
    requires Inv(w) && Step(w, a, w') && Careful(w, a)
    ensures Inv(w')
  {
    match a
    case Tick(_) => WaningKeepsInv(w, w');
    case AppRequest(req) => RequestKeepsInv(w, req, w');
    case AppDelete(rf) => AppDeleteKeepsInv(w, rf, w');
    case AppOther => OtherKeepsInv(w);
    case AppExpire => ExpireKeepsInv(w);
    case AppReceive(r) =>
      if Attributed(w.app, r) {
        if w.app.pending[r.requestId].isDelete { ReceiveDeleteKeepsInv(w, r); } else { ReceiveRequestKeepsInv(w, r); }
      }
    case RanHandle(m) =>
      if m.UpRequest? { HandleRequestKeepsInv(w, m); } else { HandleDeleteKeepsInv(w, m); }
    case RanSweep =>
      SweepIsLess(w, w'.ran);
      WaningKeepsInv(w, w');
    case RanOther => WaningKeepsInv(w, w');
  }

  lemma {:induction false} RunInv(worlds: seq<World>, moves: seq<Move>, i: nat)
    requires CarefulRun(worlds, moves) && i < |worlds|
    ensures Inv(worlds[i])
    decreases i
  {
    if i > 0 {
      RunInv(worlds, moves, i - 1);
      StepKeepsInv(worlds[i - 1], moves[i - 1], worlds[i]);
    }
  }

  /** A dApp that never asks again has no open request about a function it holds. */
  ghost predicate NeverAgain(w: World) {
    forall rf :: rf in w.app.held.rfToSub ==> Quiet(w, rf)
  }

  lemma ReceiveKeepsNeverAgain(w: World, r: Response)
    requires Inv(w) && NeverAgain(w)
    ensures NeverAgain(w.(app := Receive(w.app, r, w.now)))
  {
    var w' := w.(app := Receive(w.app, r, w.now));
    if Attributed(w.app, r) {
      assert AloneOk(w, r.requestId);
      forall rf | rf in w'.app.held.rfToSub ensures Quiet(w', rf) {
        assert rf in w.app.held.rfToSub ==> Quiet(w, rf);
      }
    }
  }

  lemma StepKeepsNeverAgain(w: World, a: Move, w': World)
    requires Inv(w) && NeverAgain(w) && Step(w, a, w') && Disciplined(w, a)
    ensures Careful(w, a) && NeverAgain(w')
  {
    match a
    case AppReceive(r) => ReceiveKeepsNeverAgain(w, r);
    case _ =>
      forall rf | rf in w'.app.held.rfToSub ensures Quiet(w', rf) { assert Quiet(w, rf); }
  }

  lemma {:induction false} DisciplinedRunInv(worlds: seq<World>, moves: seq<Move>, i: nat)
    requires DisciplinedRun(worlds, moves) && i < |worlds|
    ensures Inv(worlds[i]) && NeverAgain(worlds[i])
    decreases i
  {
    if i > 0 {
      DisciplinedRunInv(worlds, moves, i - 1);
      StepKeepsNeverAgain(worlds[i - 1], moves[i - 1], worlds[i]);
      StepKeepsInv(worlds[i - 1], moves[i - 1], worlds[i]);
    }
  }

  // ----------------------------------------------------------------------- theorems

  /** Along every disciplined run: whatever the dApp holds and the RAN still has is the same
      subscription, and the dApp does not count on an earlier end than the RAN. */
  lemma DeadlinesAreNeverEarly(worlds: seq<World>, moves: seq<Move>, i: nat, rf: nat)
    requires DisciplinedRun(worlds, moves) && i < |worlds|
    requires rf in worlds[i].app.held.rfToSub && (worlds[i].me, rf) in worlds[i].ran.subs
    ensures var entry := worlds[i].ran.subs[(worlds[i].me, rf)];
            && entry.id == worlds[i].app.held.rfToSub[rf]
            && NoLater(entry.details.expires, Deadline(worlds[i].app.held, rf))
  {
    DisciplinedRunInv(worlds, moves, i);
    assert QuietOk(worlds[i], rf);
  }

  /** And along every careful run, whenever no request about the function is open: asking again
      does no harm if the new end is no earlier than the deadline the dApp has on record. */
  lemma DeadlinesSettleInOrder(worlds: seq<World>, moves: seq<Move>, i: nat, rf: nat)
    requires CarefulRun(worlds, moves) && i < |worlds| && Quiet(worlds[i], rf)
    requires rf in worlds[i].app.held.rfToSub && (worlds[i].me, rf) in worlds[i].ran.subs
    ensures var entry := worlds[i].ran.subs[(worlds[i].me, rf)];
            && entry.id == worlds[i].app.held.rfToSub[rf]
            && NoLater(entry.details.expires, Deadline(worlds[i].app.held, rf))
  {
    RunInv(worlds, moves, i);
    assert QuietOk(worlds[i], rf);
  }

  /** Along every disciplined run, swept or not: whenever the RAN handles a request, the dApp's
      earlier subscription to that function, if the RAN still has one, has expired.  The answer
      is never that subscription left as it was: a positive one names an entry whose deadline
      is counted from the moment of handling. */
  lemma RenewalsAreNeverTheDyingSubscription(worlds: seq<World>, moves: seq<Move>, i: nat)
    requires DisciplinedRun(worlds, moves) && i < |moves|
    requires moves[i].RanHandle? && moves[i].message.UpRequest?
    ensures var req := moves[i].message.req;
            var w := worlds[i];
            && Dead(w, req.ranFunction)
            && (Handled(w, moves[i].message).response.positive ==>
                  && (w.me, req.ranFunction) in worlds[i + 1].ran.subs
                  && worlds[i + 1].ran.subs[(w.me, req.ranFunction)].details == Requested(req, w.now)
                  && Handled(w, moves[i].message).response.id == Some(worlds[i + 1].ran.subs[(w.me, req.ranFunction)].id))
  {
    DisciplinedRunInv(worlds, moves, i);
    assert Step(worlds[i], moves[i], worlds[i + 1]);
    HandledRequestIsDead(worlds[i], moves[i].message);
  }

  lemma HandledRequestIsDead(w: World, m: Up)
    requires Inv(w) && NeverAgain(w) && m in w.up && m.UpRequest?
    ensures m.req.dapp == w.me && Dead(w, m.req.ranFunction)
  {
    assert UpOk(w, m) && m.id in SentIds(w.up);
    assert OpenOk(w, m.id) && Settled(w, m.req.ranFunction);
    assert !Quiet(w, m.req.ranFunction);
  }

  /** Along every careful run, a subscription that is live at the RAN is one the dApp holds or has
      an open request about. */
  lemma LiveSubscriptionsAreKnown(worlds: seq<World>, moves: seq<Move>, i: nat, rf: nat)
    requires CarefulRun(worlds, moves) && i < |worlds|
    requires (worlds[i].me, rf) in worlds[i].ran.subs
    requires !IsExpired(worlds[i].ran.subs[(worlds[i].me, rf)].details, worlds[i].now)
    ensures || rf in worlds[i].app.held.rfToSub
            || exists id :: id in worlds[i].app.pending &&
                 worlds[i].app.pending[id].ranFunction == rf && !worlds[i].app.pending[id].isDelete
  {
    RunInv(worlds, moves, i);
    assert QuietOk(worlds[i], rf);
  }
}
