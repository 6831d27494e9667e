/** The E3AP messages of the subscription procedure, and the ids that tie a response to its
    request. */
module E3Messages {
  import opened Options
  import opened SubscriptionSpec

  datatype Cause =
    | Unspecified
    | ProtocolError
    | SetupRequired
    | UnsupportedRanFunction
    | UnsupportedIdentifier
    | InvalidRequest
    | NotFound
    | ResourceExhausted

  datatype SubscriptionRequest = SubscriptionRequest(
    dapp: nat,
    ranFunction: nat,
    telemetry: seq<nat>,
    controls: seq<nat>,
    seconds: Option<nat>,
    periodicity: Option<nat>)

  datatype SubscriptionDelete = SubscriptionDelete(dapp: nat, id: nat)

  datatype Response = Response(
    requestId: nat,
    dapp: nat,
    positive: bool,
    id: Option<nat>,
    cause: Option<Cause>)

  datatype SetupReply = SetupReply(requestId: nat, positive: bool, dapp: Option<nat>, cause: Option<Cause>)

  function ValueOr(o: Option<nat>, default: nat): nat {
    match o
    case Some(v) => v
    case None => default
  }

  // --------------------------------------------------------------------- message ids

  const LAP: nat := 0xFFFF_FFFF

  /** The id handed out by the n-th call (counting from 0) on one 32-bit counter: the counter
      wraps at 2^32, the id at 2^32 - 1, and 0 is skipped. */
  function MessageId(n: nat): (id: nat)
    ensures 1 <= id <= LAP
  {
    (n % U32) % LAP + 1
  }

  lemma FirstLap(n: nat)
    requires n < LAP
    ensures MessageId(n) == n + 1
  {
  }

  ghost predicate DistinctUpTo(n: nat) {
    forall i: nat, j: nat :: i < j < n ==> MessageId(i) != MessageId(j)
  }

  /** The first ids are pairwise distinct for exactly 2^32 - 1 calls: the next one repeats the
      first. */
  lemma IdsDistinctExactly(n: nat)
    ensures DistinctUpTo(n) <==> n <= LAP
  {
    if n <= LAP {
      forall i: nat, j: nat | i < j < n ensures MessageId(i) != MessageId(j) {
        FirstLap(i);
        FirstLap(j);
      }
    } else {
      assert MessageId(0) == MessageId(LAP);
    }
  }

  /** The atomic 32-bit counter ids come from; `calls` counts how often it was used. */
  class MessageIds {
    var counter: nat
    ghost var calls: nat

    ghost predicate Valid()
      reads this
    {
      counter == calls % U32
    }

    constructor ()
      ensures Valid() && calls == 0
    {
      counter, calls := 0, 0;
    }

    method Generate() returns (id: nat)
      requires Valid()
      modifies this
      ensures Valid() && calls == old(calls) + 1 && id == MessageId(old(calls))
    {
      var n := counter;
      counter := if counter + 1 == U32 then 0 else counter + 1;
      calls := calls + 1;
      id := n % LAP + 1;
    }

    /** Any non-zero request id is echoed; 0 cannot be sent, so it is replaced. */
    method Sanitize(requestId: nat) returns (id: nat)
      requires Valid()
      modifies this
      ensures Valid() && id != 0
      ensures requestId != 0 ==> id == requestId && calls == old(calls)
      ensures requestId == 0 ==> id == MessageId(old(calls)) && calls == old(calls) + 1
    {
      if requestId != 0 {
        return requestId;
      }
      id := Generate();
    }
  }
}
