/** The RAN's subscriptions as one abstract relation, and what each operation of the
    subscription manager means for it. */
module SubscriptionSpec {
  import opened Options

  const MIN_ID: nat := 1
  const MAX_ID: nat := 65535
  const U32: nat := 0x1_0000_0000
  const SECOND: nat := 1_000_000_000

  datatype Code = Success | DappNotRegistered | SubscriptionExists | SubscriptionNotFound | InternalError

  /** Per-subscription metadata; `expires` is unset for a subscription without a time limit. */
  datatype Details = Details(
    telemetry: seq<nat>,
    controls: seq<nat>,
    periodicity: nat,
    seconds: nat,
    expires: Option<nat>)

  datatype Entry = Entry(id: nat, details: Details)

  /** (dApp, RAN function). */
  type Pair = (nat, nat)

  /** A start or stop callback to the Service Model of one RAN function. */
  datatype Event = Event(ranFunction: nat, start: bool)

  datatype Expired = Expired(dapp: nat, ranFunction: nat, id: nat)

  datatype Spec = Spec(registered: set<nat>, subs: map<Pair, Entry>, events: seq<Event>)

  const EMPTY: Spec := Spec({}, map[], [])

  // --------------------------------------------------------------- observations

  predicate IsExpired(d: Details, at: nat) {
    d.expires.Some? && at >= d.expires.value
  }

  function NewDetails(telemetry: seq<nat>, controls: seq<nat>, periodicity: nat, seconds: nat, now: nat): Details {
    Details(telemetry, controls, periodicity, seconds,
            if seconds > 0 then Some(now + seconds * SECOND) else None)
  }

  function Ids(subs: map<Pair, Entry>): set<nat> {
    set p | p in subs :: subs[p].id
  }

  function Subscribers(subs: map<Pair, Entry>, r: nat): set<nat> {
    set p | p in subs && p.1 == r :: p.0
  }

  /** Who is to receive an indication of RAN function `r` at time `at`. */
  function Live(subs: map<Pair, Entry>, r: nat, at: nat): set<nat> {
    set p | p in subs && p.1 == r && !IsExpired(subs[p].details, at) :: p.0
  }

  function ExpiredPairs(subs: map<Pair, Entry>, at: nat): set<Pair> {
    set p | p in subs && IsExpired(subs[p].details, at)
  }

  function PairsOf(subs: map<Pair, Entry>, d: nat): set<Pair> {
    set p | p in subs && p.0 == d
  }

  /** The RAN functions that lose their last subscriber when `gone` is removed. */
  function Emptied(subs: map<Pair, Entry>, gone: set<Pair>): set<nat> {
    set p | p in gone && p in subs && Subscribers(subs - gone, p.1) == {} :: p.1
  }

  // ----------------------------------------------------------------- id allocation

  function LowestFreeFrom(taken: set<nat>, id: nat): (r: nat)
    requires MIN_ID <= id <= MAX_ID + 1
    ensures r == 0 ==> forall i :: id <= i <= MAX_ID ==> i in taken
    ensures r != 0 ==> id <= r <= MAX_ID && r !in taken && forall i :: id <= i < r ==> i in taken
    decreases MAX_ID + 1 - id
  {
    if id == MAX_ID + 1 then 0
    else if id !in taken then id
    else LowestFreeFrom(taken, id + 1)
  }

  /** The lowest id in 1..65535 that is not taken, 0 when all are. */
  function LowestFree(taken: set<nat>): (r: nat)
    ensures r == 0 <==> forall i :: MIN_ID <= i <= MAX_ID ==> i in taken
    ensures r != 0 ==> MIN_ID <= r <= MAX_ID && r !in taken && forall i :: MIN_ID <= i < r ==> i in taken
  {
    LowestFreeFrom(taken, MIN_ID)
  }

  // -------------------------------------------------------------------- operations

  /** What an operation leaves behind and what it answers. */
  datatype Outcome = Outcome(after: Spec, code: Code, id: nat)

  function Register(a: Spec): Outcome {
    var id := LowestFree(a.registered);
    if id == 0 then Outcome(a, InternalError, 0)
    else Outcome(a.(registered := a.registered + {id}), Success, id)
  }

  /** A first subscription gets the lowest free id and starts the Service Model when it is the
      function's first; a repeat of a live subscription changes nothing; a repeat of one that
      ran out takes its place under the same id. */
  function Add(a: Spec, d: nat, r: nat, details: Details, now: nat): Outcome {
    if d !in a.registered then Outcome(a, DappNotRegistered, 0)
    else if (d, r) in a.subs then
      var e := a.subs[(d, r)];
      if IsExpired(e.details, now)
      then Outcome(a.(subs := a.subs[(d, r) := Entry(e.id, details)]), Success, e.id)
      else Outcome(a, SubscriptionExists, e.id)
    else
      var id := LowestFree(Ids(a.subs));
      if id == 0 then Outcome(a, InternalError, 0)
      else
        Outcome(a.(subs := a.subs[(d, r) := Entry(id, details)],
                   events := a.events + if Subscribers(a.subs, r) == {} then [Event(r, true)] else []),
                Success, id)
  }

  function Remove(a: Spec, d: nat, r: nat): Outcome {
    if (d, r) !in a.subs then Outcome(a, SubscriptionNotFound, 0)
    else
      var subs := a.subs - {(d, r)};
      Outcome(a.(subs := subs,
                 events := a.events + if Subscribers(subs, r) == {} then [Event(r, false)] else []),
              Success, 0)
  }

  /** dApp `d` holds subscription `id`, and it is for RAN function `r`. */
  predicate Owns(a: Spec, d: nat, r: nat, id: nat) {
    (d, r) in a.subs && a.subs[(d, r)].id == id
  }

  /** A dApp can remove by id only a subscription of its own. */
  ghost function RemoveById(a: Spec, d: nat, id: nat): Outcome {
    if r :| Owns(a, d, r, id) then Remove(a, d, r)
    else Outcome(a, SubscriptionNotFound, 0)
  }

  /** `events` stops each function of `emptied` once, in some order, and does nothing else. */
  ghost predicate StopsExactly(events: seq<Event>, emptied: set<nat>) {
    && (forall i :: 0 <= i < |events| ==> !events[i].start && events[i].ranFunction in emptied)
    && (forall i, j :: 0 <= i < j < |events| ==> events[i].ranFunction != events[j].ranFunction)
    && (forall r :: r in emptied ==> Event(r, false) in events)
  }

  /** Removing a batch of pairs, with the stops that follow from it in any order. */
  ghost predicate Dropped(a: Spec, gone: set<Pair>, a': Spec) {
    && a'.subs == a.subs - gone
    && a.events <= a'.events
    && StopsExactly(a'.events[|a.events|..], Emptied(a.subs, gone))
  }

  ghost predicate Unregister(a: Spec, d: nat, a': Spec, code: Code) {
    if d !in a.registered then a' == a && code == DappNotRegistered
    else Dropped(a, PairsOf(a.subs, d), a') && a'.registered == a.registered - {d} && code == Success
  }

  ghost predicate Sweep(a: Spec, at: nat, a': Spec) {
    Dropped(a, ExpiredPairs(a.subs, at), a') && a'.registered == a.registered
  }

  // ------------------------------------------------------------------------- runs

  datatype Op =
    | DoRegister
    | DoUnregister(dapp: nat)
    | DoAdd(dapp: nat, ranFunction: nat, details: Details, now: nat)
    | DoRemove(dapp: nat, ranFunction: nat)
    | DoRemoveById(dapp: nat, id: nat)
    | DoSweep(at: nat)

  ghost predicate Step(a: Spec, op: Op, a': Spec) {
    match op
    case DoRegister => a' == Register(a).after
    case DoUnregister(d) => exists code :: Unregister(a, d, a', code)
    case DoAdd(d, r, details, now) => a' == Add(a, d, r, details, now).after
    case DoRemove(d, r) => a' == Remove(a, d, r).after
    case DoRemoveById(d, id) => a' == RemoveById(a, d, id).after
    case DoSweep(at) => Sweep(a, at, a')
  }

  /** A run from the empty manager: `states[i + 1]` follows from `states[i]` by `ops[i]`. */
  ghost predicate IsRun(states: seq<Spec>, ops: seq<Op>) {
    && |states| == |ops| + 1
    && states[0] == EMPTY
    && forall i :: 0 <= i < |ops| ==> Step(states[i], ops[i], states[i + 1])
  }
}
