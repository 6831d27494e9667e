/** The RAN's handlers, which compute the answers over the subscription manager. */
module RanHandlers {
  import opened Options
  import opened SubscriptionSpec
  import opened SubscriptionTheorems
  import opened SubscriptionManagement
  import opened E3Messages
  import opened RanAnswers

  /** Does every requested identifier occur among the offered ones? */
  method AllOffered(ids: seq<nat>, offered: seq<nat>) returns (all: bool)
    ensures all <==> AllIn(ids, offered)
  {
    for i := 0 to |ids|
      invariant forall j :: 0 <= j < i ==> ids[j] in offered
    {
      if ids[i] !in offered {
        return false;
      }
    }
    all := true;
  }

  /** The RAN role of the interface: the subscription manager, the Service Models' offers and
      the message id counter. */
  class RanInterface {
    const manager: SubscriptionManager
    const ids: MessageIds
    const models: Registry

    ghost predicate Valid()
      reads manager, ids
    {
      manager.Valid() && ids.Valid()
    }

    constructor (models: Registry)
      ensures Valid() && fresh(manager) && fresh(ids) && manager.View() == EMPTY && this.models == models
    {
      this.models := models;
      manager := new SubscriptionManager();
      ids := new MessageIds();
    }

    /** A positive setup reply carries a newly registered id, distinct from every live dApp's; a
        negative one is sent exactly when all ids are taken. */
    method HandleSetupRequest(requestId: nat) returns (reply: SetupReply)
      requires Valid()
      modifies ids, manager
      ensures Valid() && reply.requestId != 0 && (requestId != 0 ==> reply.requestId == requestId)
      ensures reply.positive <==> reply.dapp.Some?
      ensures reply.positive ==>
                && MIN_ID <= reply.dapp.value <= MAX_ID
                && reply.dapp.value !in old(manager.View()).registered
                && manager.View() == old(manager.View()).(registered := old(manager.View()).registered + {reply.dapp.value})
      ensures !reply.positive ==>
                && reply.cause == Some(ResourceExhausted) && manager.View() == old(manager.View())
                && forall i :: MIN_ID <= i <= MAX_ID ==> i in manager.View().registered
    {
      var echoed := ids.Sanitize(requestId);
      var code, id := manager.RegisterDapp();
      if code == Success {
        reply := SetupReply(echoed, true, Some(id), None);
      } else {
        reply := SetupReply(echoed, false, None, Some(ResourceExhausted));
      }
      var _ := ids.Generate();
    }

    method RefusalFor(req: SubscriptionRequest) returns (cause: Option<Cause>)
      ensures cause == RefusalCause(models, req)
      ensures cause.None? <==>
                && req.ranFunction in models && (req.telemetry != [] || req.controls != [])
                && (forall i :: 0 <= i < |req.telemetry| ==> req.telemetry[i] in models[req.ranFunction].telemetry)
                && (forall i :: 0 <= i < |req.controls| ==> req.controls[i] in models[req.ranFunction].controls)
    {
      if req.ranFunction !in models {
        return Some(UnsupportedRanFunction);
      }
      if req.telemetry == [] && req.controls == [] {
        return Some(InvalidRequest);
      }
      var known := AllOffered(req.telemetry, models[req.ranFunction].telemetry);
      if !known {
        return Some(UnsupportedIdentifier);
      }
      known := AllOffered(req.controls, models[req.ranFunction].controls);
      cause := if known then None else Some(UnsupportedIdentifier);
    }

    method HandleSubscriptionRequest(req: SubscriptionRequest, requestId: nat, now: nat) returns (response: Response)
      requires Valid() && req.dapp < U32 && req.ranFunction < U32
      modifies ids, manager
      ensures Valid()
      ensures Answer(manager.View(), response) == AnswerRequest(old(manager.View()), models, req, requestId, now)
    {
      var registered := manager.IsDappRegistered(req.dapp);
      if !registered {
        response := Response(requestId, req.dapp, false, None, Some(SetupRequired));
      } else {
        var refusal := RefusalFor(req);
        if refusal.Some? {
          response := Response(requestId, req.dapp, false, None, refusal);
        } else {
          var code, id := manager.AddSubscription(req.dapp, req.ranFunction, req.telemetry, req.controls,
                                                  ValueOr(req.periodicity, 0), ValueOr(req.seconds, 0), now);
          if code == Success || code == SubscriptionExists {
            response := Response(requestId, req.dapp, true, Some(id), None);
          } else {
            var cause := if code == InternalError then ResourceExhausted else Unspecified;
            response := Response(requestId, req.dapp, false, None, Some(cause));
          }
        }
      }
      var _ := ids.Generate();
    }

    method HandleSubscriptionDelete(del: SubscriptionDelete, requestId: nat) returns (response: Response)
      requires Valid()
      modifies ids, manager
      ensures Valid()
      ensures Answer(manager.View(), response) == AnswerDelete(old(manager.View()), del, requestId)
    {
      var code := manager.RemoveSubscriptionById(del.dapp, del.id);
      if code == Success {
        response := Response(requestId, del.dapp, true, Some(del.id), None);
      } else {
        var cause := if code == DappNotRegistered then SetupRequired else NotFound;
        response := Response(requestId, del.dapp, false, None, Some(cause));
      }
      var _ := ids.Generate();
    }
  }
}
