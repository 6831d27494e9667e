/** The dApp role of the interface as the object that is updated in place. */
module DAppInterface {
  import opened Options
  import opened SubscriptionSpec
  import opened E3Messages
  import opened DAppState
  import opened DAppSession

  datatype Queued = Accepted | NotInitialized | NoSuchSubscription | Rejected

  class DAppInterface {
    const record: DAppSubscriptionState
    const ids: MessageIds
    var pending: map<nat, Pending>
    var ranGone: bool

    ghost predicate Valid()
      reads ids
    {
      ids.Valid()
    }

    ghost function View(): App
      reads this, record, ids
    {
      App(record.View(), pending, ids.calls, ranGone)
    }

    constructor ()
      ensures Valid() && fresh(record) && fresh(ids) && View() == FRESH
    {
      record := new DAppSubscriptionState();
      ids := new MessageIds();
      pending, ranGone := map[], false;
    }

    /** Ask for a subscription.  The request is remembered before it is sent, because the
        response can arrive first; `room` says whether the outbound queue takes it. */
    method QueueSubscriptionRequest(rf: nat, seconds: Option<nat>, room: bool) returns (code: Queued, requestId: nat)
      requires Valid()
      modifies this, ids
      ensures Valid() && View() == Request(old(View()), rf, seconds, room)
      ensures code == if old(record.dappId).None? then NotInitialized else if room then Accepted else Rejected
      ensures code.Accepted? ==> requestId == NextId(old(View()))
    {
      requestId := 0;
      if record.dappId.None? {
        return NotInitialized, 0;
      }
      requestId := ids.Generate();
      pending := pending[requestId := Pending(rf, false, seconds)];
      if !room {
        pending := pending - {requestId};
        assert pending == old(pending) - {requestId};
        return Rejected, requestId;
      }
      code := Accepted;
    }

    /** Ask for the deletion of a held subscription. */
    method QueueSubscriptionDelete(rf: nat, room: bool) returns (code: Queued, del: SubscriptionDelete)
      requires Valid()
      modifies this, ids
      ensures Valid() && View() == Delete(old(View()), rf, room)
      ensures code == if old(record.dappId).None? then NotInitialized
                      else if rf !in old(record.rfToSub) then NoSuchSubscription
                      else if room then Accepted else Rejected
      ensures code.Accepted? ==> del == SubscriptionDelete(old(record.dappId).value, old(record.rfToSub[rf]))
    {
      del := SubscriptionDelete(0, 0);
      if record.dappId.None? {
        return NotInitialized, del;
      }
      if rf !in record.rfToSub {
        return NoSuchSubscription, del;
      }
      del := SubscriptionDelete(record.dappId.value, record.rfToSub[rf]);
      var id := ids.Generate();
      pending := pending[id := Pending(rf, true, None)];
      if !room {
        pending := pending - {id};
        assert pending == old(pending) - {id};
        return Rejected, del;
      }
      code := Accepted;
    }

    /** A response is matched with the request that caused it through the pending table alone. */
    method HandleSubscriptionResponse(r: Response, now: nat)
      requires Valid()
      modifies this, record
      ensures Valid() && View() == Receive(old(View()), r, now)
    {
      if record.dappId != Some(r.dapp) {
        return;
      }
      if r.requestId !in pending {
        return;
      }
      var op := pending[r.requestId];
      pending := pending - {r.requestId};
      if r.positive {
        if op.isDelete {
          var _ := record.RemoveSubscriptionByRf(op.ranFunction);
        } else if r.id.Some? {
          var expires := None;
          if op.seconds.Some? && op.seconds.value > 0 {
            expires := Some(now + op.seconds.value * SECOND);
          }
          record.RecordSubscription(op.ranFunction, r.id.value, expires);
        }
      }
    }

    /** A positive setup response brings the assigned id; a refusal changes nothing. */
    method HandleSetupResponse(dapp: Option<nat>, positive: bool)
      requires Valid()
      modifies record
      ensures Valid() && View() == SetupAnswered(old(View()), dapp, positive)
    {
      if positive {
        record.RecordSetupResponse(ValueOr(dapp, 0));
      }
    }

    /** The session is over: forget the assignment, the subscriptions and the open requests. */
    method OnRanGone()
      requires Valid()
      modifies this, record
      ensures Valid() && View() == RanGone(old(View()))
    {
      if ranGone {
        return;
      }
      ranGone := true;
      record.ClearSession();
      pending := map[];
    }

    /** The session reset at the start of a run; the message id counter is kept. */
    method Start()
      requires Valid()
      modifies this, record
      ensures Valid() && View() == Restart(old(View()))
    {
      record.ClearSession();
      pending := map[];
      ranGone := false;
    }
  }
}
