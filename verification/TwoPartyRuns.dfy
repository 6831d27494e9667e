/** Runs of the two-party protocol that show what its conditions are for. */
module TwoPartyRuns {
  import opened Options
  import opened SubscriptionSpec
  import opened SubscriptionTheorems
  import opened E3Messages
  import opened DAppState
  import opened DAppSession
  import opened RanAnswers
  import opened TwoParty

  ghost predicate Reached(w: World, careful: bool) {
    exists worlds: seq<World>, moves: seq<Move> ::
      (if careful then CarefulRun(worlds, moves) else TwoParty.IsRun(worlds, moves)) && worlds[|moves|] == w
  }

  lemma ReachedFirst(w: World)
    requires Starts(w)
    ensures Reached(w, true)
  {
    var worlds, moves: seq<Move> := [w], [];
    assert CarefulRun(worlds, moves) && worlds[|moves|] == w;
  }

  lemma ReachedOn(w: World, a: Move, w': World, careful: bool)
    requires Reached(w, careful) && TwoParty.Step(w, a, w') && (careful ==> Careful(w, a))
    ensures Reached(w', careful)
  {
    var worlds: seq<World>, moves: seq<Move> :|
      (if careful then CarefulRun(worlds, moves) else TwoParty.IsRun(worlds, moves)) && worlds[|moves|] == w;
    var worlds', moves' := worlds + [w'], moves + [a];
    assert TwoParty.IsRun(worlds', moves');
    assert careful ==> CarefulRun(worlds', moves');
    assert worlds'[|moves'|] == w';
  }

  lemma CarefulIsReached(w: World)
    requires Reached(w, true)
    ensures Reached(w, false)
  {
    var worlds: seq<World>, moves: seq<Move> :| CarefulRun(worlds, moves) && worlds[|moves|] == w;
    assert TwoParty.IsRun(worlds, moves) && worlds[|moves|] == w;
  }

  // ------------------------------------------------------------------- one exchange

  ghost function Granted(w: World, req: SubscriptionRequest): Outcome {
    Add(w.ran, w.me, req.ranFunction, Requested(req, w.now), w.now)
  }

  /** Nothing is open, and the RAN will grant the request. */
  ghost predicate Ready(w: World, req: SubscriptionRequest) {
    && w.app.pending == map[] && w.app.held.dappId == Some(w.me) && w.app.calls < LAP && w.up == {}
    && req.dapp == w.me && w.me in w.ran.registered && RefusalCause(w.models, req).None?
    && (Granted(w, req).code == Success || Granted(w, req).code == SubscriptionExists)
  }

  function Answered(w: World, id: nat): Response {
    Response(w.app.calls + 1, w.me, true, Some(id), None)
  }

  /** The request is on its way. */
  function Asked(w: World, req: SubscriptionRequest): World {
    w.(app := w.app.(calls := w.app.calls + 1,
                     pending := map[w.app.calls + 1 := Pending(req.ranFunction, false, req.seconds)]),
       up := {UpRequest(w.app.calls + 1, req)})
  }

  /** The answer is on its way. */
  ghost function Served(w: World, req: SubscriptionRequest): World {
    Asked(w, req).(ran := Granted(w, req).after, up := {}, down := w.down + {Answered(w, Granted(w, req).id)})
  }

  /** The answer has arrived, `late` after it was given. */
  ghost function Exchanged(w: World, req: SubscriptionRequest, late: nat): World {
    var o := Granted(w, req);
    w.(now := w.now + late, ran := o.after, down := w.down + {Answered(w, o.id)},
       app := w.app.(calls := w.app.calls + 1,
                     held := Record(w.app.held, req.ranFunction, o.id, EndFrom(req.seconds, w.now + late))))
  }

  lemma AskStep(w: World, req: SubscriptionRequest)
    requires Ready(w, req)
    ensures TwoParty.Step(w, AppRequest(req), Asked(w, req))
  {
    FirstLap(w.app.calls);
  }

  lemma ServeStep(w: World, req: SubscriptionRequest)
    requires Ready(w, req)
    ensures TwoParty.Step(Asked(w, req), RanHandle(UpRequest(w.app.calls + 1, req)), Served(w, req))
  {
  }

  lemma ArriveStep(w: World, req: SubscriptionRequest, late: nat)
    requires Ready(w, req)
    ensures TwoParty.Step(Served(w, req).(now := w.now + late), AppReceive(Answered(w, Granted(w, req).id)),
                          Exchanged(w, req, late))
  {
    assert map[w.app.calls + 1 := Pending(req.ranFunction, false, req.seconds)] - {w.app.calls + 1} == map[];
  }

  lemma Ask(w: World, req: SubscriptionRequest, careful: bool)
    requires Reached(w, careful) && Ready(w, req) && (careful ==> Careful(w, AppRequest(req)))
    ensures Reached(Served(w, req), careful)
  {
    AskStep(w, req);
    ReachedOn(w, AppRequest(req), Asked(w, req), careful);
    ServeStep(w, req);
    ReachedOn(Asked(w, req), RanHandle(UpRequest(w.app.calls + 1, req)), Served(w, req), careful);
  }

  lemma Exchange(w: World, req: SubscriptionRequest, late: nat, careful: bool)
    requires Reached(w, careful) && Ready(w, req) && (careful ==> Careful(w, AppRequest(req)))
    ensures Reached(Exchanged(w, req, late), careful)
  {
    Ask(w, req, careful);
    var later := Served(w, req).(now := w.now + late);
    ReachedOn(Served(w, req), Tick(late), later, careful);
    ArriveStep(w, req, late);
    ReachedOn(later, AppReceive(Answered(w, Granted(w, req).id)), Exchanged(w, req, late), careful);
  }

  // ------------------------------------------------------------------ the first grant

  const FUNCTION: nat := 7

  function Asking(seconds: Option<nat>): SubscriptionRequest {
    SubscriptionRequest(1, FUNCTION, [3], [], seconds, None)
  }

  /** dApp 1 asked for the function at time 0, has held it, under id 1, since the answer arrived,
      and nothing else has happened. */
  ghost predicate Holding(w: World, seconds: Option<nat>, late: nat) {
    && w.me == 1 && w.models == map[FUNCTION := ServiceModel([3], [])]
    && w.ran.registered == {1} && w.app.calls == 1 && w.up == {} && w.app.pending == map[]
    && w.ran.subs == map[(1, FUNCTION) := Entry(1, Requested(Asking(seconds), 0))]
    && w.app.held.dappId == Some(1) && w.app.held.rfToSub == map[FUNCTION := 1]
    && Deadline(w.app.held, FUNCTION) == EndFrom(seconds, late)
  }

  function Opening(): World {
    World(0, 1, map[FUNCTION := ServiceModel([3], [])], Spec({1}, map[], []),
          App(NOTHING.(dappId := Some(1)), map[], 0, false), {}, {})
  }

  lemma FirstId()
    ensures Ids(map[]) == {} && LowestFree(Ids(map[])) == 1
  {
    assert Ids(map[]) == {};
    assert MIN_ID !in Ids(map[]);
  }

  lemma FirstGrant(seconds: Option<nat>, late: nat) returns (w: World)
    ensures Reached(w, true) && Holding(w, seconds, late) && w.now == late
  {
    var w0, req := Opening(), Asking(seconds);
    ReachedFirst(w0);
    FirstId();
    assert Ready(w0, req);
    Exchange(w0, req, late, true);
    w := Exchanged(w0, req, late);
  }

  lemma HoldOn(seconds: Option<nat>, t: nat) returns (w: World)
    ensures Reached(w, true) && Holding(w, seconds, 0) && w.now == t
  {
    var w0 := FirstGrant(seconds, 0);
    w := w0.(now := t);
    ReachedOn(w0, Tick(t), w, true);
  }

  // --------------------------------------------------------------- what the care is for

  /** The condition on asking again is exact: whenever the new end is earlier than the deadline
      the dApp has on record, there is a run, careful up to that request, after which nothing is
      open and the dApp counts on an earlier end than the RAN. */
  lemma EarlierEndBreaks(first: Option<nat>, second: Option<nat>, t: nat) returns (w: World, w': World)
    requires !NoLater(EndFrom(first, 0), EndFrom(second, t))
    ensures Reached(w, true) && w.now == t && FUNCTION in w.app.held.rfToSub && Untouched(w, FUNCTION)
    ensures Deadline(w.app.held, FUNCTION) == EndFrom(first, 0)
    ensures w' == Exchanged(w, Asking(second), 0) && Reached(w', false) && Quiet(w', FUNCTION)
    ensures FUNCTION in w'.app.held.rfToSub && (w'.me, FUNCTION) in w'.ran.subs && !InStep(w', FUNCTION)
  {
    var req := Asking(second);
    w := HoldOn(first, t);
    CarefulIsReached(w);
    assert !IsExpired(w.ran.subs[(1, FUNCTION)].details, t);
    assert Ready(w, req) && Granted(w, req).after == w.ran;
    Exchange(w, req, 0, false);
    w' := Exchanged(w, req, 0);
  }

  /** While a careful request is open the RAN can be ahead: it has renewed a subscription that ran
      out on its side, and the dApp still has the old deadline on record. */
  lemma RenewalRunsAhead() returns (w: World)
    ensures Reached(w, true) && !Quiet(w, FUNCTION)
    ensures FUNCTION in w.app.held.rfToSub && (w.me, FUNCTION) in w.ran.subs && !InStep(w, FUNCTION)
  {
    var second := Asking(Some(2));
    var held := FirstGrant(Some(1), SECOND);
    RunsOut(held);
    Ask(held, second, true);
    w := Served(held, second);
    assert w.ran.subs[(1, FUNCTION)].details.expires == Some(3 * SECOND);
    assert Deadline(w.app.held, FUNCTION) == Some(2 * SECOND);
    assert 2 in w.app.pending && w.app.pending[2] == Pending(FUNCTION, false, Some(2));
  }

  /** With the answer a second late, a one-second subscription has run out at the RAN when the
      dApp starts to count. */
  lemma RunsOut(w: World)
    requires Holding(w, Some(1), SECOND) && w.now == SECOND
    ensures Ready(w, Asking(Some(2))) && Careful(w, AppRequest(Asking(Some(2))))
    ensures Granted(w, Asking(Some(2))).after.subs == w.ran.subs[(1, FUNCTION) := Entry(1, Requested(Asking(Some(2)), SECOND))]
  {
    assert IsExpired(w.ran.subs[(1, FUNCTION)].details, w.now);
  }
}
