# libe3 in Dafny

libe3 implements E3AP, the protocol between a RAN and its dApps, for both sides. This project
models the stateful logic of the library and proves what it promises. Nothing here performs
I/O: clocks, schedulers, kernels and networks appear as arbitrary inputs, so every statement
holds for whatever they do.

* **Message queue.** `MpmcRing.dfy` is the lock-free ring as a step relation over any number of
  threads, one atomic load, store or compare-and-swap per step; `MpmcInvariant.dfy` holds the
  invariant and its preservation, `MpmcTheorems.dfy` and `MpmcProgress.dfy` what follows.
  `BlockingQueue.dfy` puts the spin/yield/sleep pop, the notifying push, `shutdown` and `rearm` on
  top of it, down to the mutex and the condition variable; `WakeupProof.dfy` shows that no wake-up
  is lost, `ConsumerSleep.dfy` when the consumer sleeps. `QueueLaws.dfy` says what each call does
  to the queue when its thread runs alone, from any state earlier calls left; the runs behind it are
  in `SoloRuns.dfy` and `QueueSteps.dfy`, over the step sequences of `Chains.dfy`. `Bits.dfy` holds
  the mask arithmetic.
* **Subscriptions on the RAN.** `SubscriptionSpec.dfy` is the simple form: one map from (dApp,
  RAN function) to (id, details), with the callbacks issued so far, and `SubscriptionTheorems.dfy`
  holds the theorems over every run; `SubscriptionLaws.dfy` says what each operation leaves and until
  when a subscription is served. `SubscriptionIndexes.dfy` relates the five indexes to that
  map, and `SubscriptionManager.dfy` is the class that updates them in place and refines it.
  `SweepTransparency.dfy` compares a manager that is swept with one that is not.
* **The two-party protocol.** `E3Messages.dfy` (messages and message ids), `RanAnswers.dfy`
  and `RanHandlers.dfy` (the RAN's answers and handlers), `DAppState.dfy` (what a dApp remembers),
  `DAppSession.dfy` and `DAppInterface.dfy` (its pending requests, against an arbitrary network),
  and `TwoParty.dfy` (both sides on one time line with messages in flight), with runs that show
  what its conditions are for in `TwoPartyRuns.dfy`.
* **POSIX transport.** `Framing.dfy` (length-prefixed frames under short writes and reads),
  `Broadcast.dfy` (the RAN's broadcast to a changing peer list), `PeerScan.dfy` (the rotating
  receive).
* **Smaller parts.** `Utf8.dfy` (validation and truncation of the `detail` text),
  `LatencyRing.dfy` (the latency recorder's ring and its reader), `Pacer.dfy` (the fixed-rate
  worker).

Source code that changes state in place is a class or a method with a loop here, tied by its
`ensures` to a function on values; the lemmas are about those functions.

Where code and documentation differ, or a stated property does not hold, the model follows the
code:

* A dApp's two maps, function to id and id to function, are inverse only under the condition of
  `DAppState.RecordKeepsInverseExactly`; `ReusedIdLosesReverseEntry` shows how they part.
* `next_message_id_` is a 32-bit counter, so message ids are distinct for exactly 2^32 - 1 calls
  (`E3Messages.IdsDistinctExactly`); one call later a stale answer can be taken for a new one
  (`DAppSession.StaleAnswerIsTaken`).
* The two-party deadline claim holds at every moment for a dApp that does not ask again for what
  it holds or has pending. Asking again is harmless in every run exactly if the new end, counted from
  then, is no earlier than the deadline the dApp has on record: `TwoParty.DeadlinesSettleInOrder`, and
  `TwoPartyRuns.EarlierEndBreaks` for every other case. While such a request is open the RAN can be
  ahead of the dApp (`TwoPartyRuns.RenewalRunsAhead`).
* Whether expired subscriptions are swept does not matter to recipients, with one exception: an add
  can be refused because expired subscriptions still hold ids
  (`SweepTransparency.TransparentExactly`, `SweepingFirstMatters`, `ExceptionHappens`).
* The rotating receive does not adjust its cursor when it drops a peer, so a drop can pass over a
  waiting peer (`PeerScan.DropPassesOver`); the bound counts the changes of the list.
* The latency reader's `wrapped` flag misses lost records after a whole number of laps
  (`LatencyRing.WrappedFlag`).
* The pacer's comment says the instantaneous rate never exceeds the configured one; it does
  after a late wake-up (`Pacer.BoundsAreReached`, and `Pacer.GapExactly` for exactly when two
  consecutive indications are a full period apart).
* The header comment of `register_dapp` speaks of at most 101 dApps; the code, and the model,
  allow 65535.
* A frame round-trips exactly if its payload is 1 to 65536 bytes long; the sender itself accepts
  any length (`Framing.FrameRoundTrip`).

## Model

| member | source | states |
|---|---|---|
| `Bits.MaskIsRemainder` | include/libe3/mpmc_queue.hpp:58-60 | For a power-of-two capacity, masking a position with capacity - 1 is the remainder by the capacity. |
| `MpmcRing.RoundCapacity` | include/libe3/mpmc_queue.hpp:56-62 | The capacity is the least power of two that is at least 2 and at least what was asked for. |
| `MpmcRing.NewRing` | include/libe3/mpmc_queue.hpp:56-75 | The constructor leaves the initial state of a ring of that capacity: slot i waits for ticket i. |
| `MpmcInvariant.RunInv` | include/libe3/mpmc_queue.hpp:94-160 | The ring invariant (which slot holds what, who owns which ticket, the sequence of every slot in the window) holds after every schedule of any number of threads. |
| `MpmcTheorems.PopsMatchPushes` | include/libe3/mpmc_queue.hpp:94-160 | In every reachable state the pop with ticket p returned exactly what the push with ticket p put in, to the thread that claimed the ticket. |
| `MpmcTheorems.NothingIsLost` | include/libe3/mpmc_queue.hpp:94-160 | With no call half-way, the items returned are exactly those under the tickets below tail, and every later pushed item sits published in its slot. |
| `MpmcTheorems.EachTicketReturnsOnce` | include/libe3/mpmc_queue.hpp:131-160 | A ticket's item is returned once, by the consumer that claimed it. |
| `MpmcTheorems.StepRefinesBoundedFifo` | include/libe3/mpmc_queue.hpp:94-160 | Every step leaves a bounded FIFO queue as it is, appends the mover's item when there is room, or removes the oldest item. |
| `MpmcTheorems.SlotsAreExclusive` | include/libe3/mpmc_queue.hpp:103-118 | At most one thread is between claiming and publishing or recycling any given slot. |
| `MpmcTheorems.SequencesNeverDecrease` | include/libe3/mpmc_queue.hpp:94-160 | No step lowers a slot sequence, the head or the tail. |
| `MpmcTheorems.SizeIsInRange` | include/libe3/mpmc_queue.hpp:168-172 | tail <= head <= tail + capacity always, so the approximate size, which loads head before tail, lies in 0..capacity. |
| `MpmcTheorems.SizeIsExact` | include/libe3/mpmc_queue.hpp:168-172 | The two loads taken in one go answer exactly how many items the queue holds. |
| `MpmcTheorems.SizeIsBracketed` | include/libe3/mpmc_queue.hpp:168-172 | With any steps of any threads in between, the answer is at most the items at the first load, and at least those at the second less the pushes claimed in between. |
| `MpmcTheorems.FullExactly` | include/libe3/mpmc_queue.hpp:95-118 | A push turns to "full" exactly if the position it read is still the head and the ticket one lap back is not recycled at its sequence load. |
| `MpmcTheorems.EmptyExactly` | include/libe3/mpmc_queue.hpp:135-158 | A pop turns to "empty" exactly if the position it read is still the tail and that ticket is not published. |
| `MpmcTheorems.QuiescentFullAndEmpty` | include/libe3/mpmc_queue.hpp:94-160 | With nothing in flight these two conditions mean exactly capacity items and exactly zero items. |
| `MpmcProgress.RetriesMeanProgress` | include/libe3/mpmc_queue.hpp:94-160 | Lock-freedom: a retry that is no spurious failure means another thread claimed the very ticket since this one read its position. |
| `WakeupProof.QRunInv` | include/libe3/lockfree_queue.hpp:82-222 | The invariant linking ring, mutex, sleeper and notifiers holds after every schedule of any number of producers and one consumer. |
| `WakeupProof.NoLostWakeup` | include/libe3/lockfree_queue.hpp:82-142 | Whenever the consumer sleeps un-notified, a published oldest item still has a producer about to notify, and a raised shutdown still has its caller about to notify. |
| `WakeupProof.SleepsOnlyWhenIdle` | include/libe3/lockfree_queue.hpp:82-222 | A consumer left asleep when everyone else has finished sleeps on an empty queue that is not shut down. |
| `ConsumerSleep.IdleConsumerSleeps` | include/libe3/lockfree_queue.hpp:112-142 | On an empty, open queue the consumer alone falls asleep after exactly its 140 attempts of five steps, one more under the mutex and the parking, and not before. |
| `QueueLaws.PushAppends` | include/libe3/lockfree_queue.hpp:82-105 | From any state, a push alone on an open queue with room ends outside with its item appended to the queue; a parked consumer is notified and nobody sleeps. |
| `QueueLaws.PushRefusedLeaves` | include/libe3/lockfree_queue.hpp:82-90 | On a full or shut queue it ends outside with the queue and its slots as they were. |
| `QueueLaws.PopReturnsOldest` | include/libe3/lockfree_queue.hpp:112-192 | A pop, timed pop or try_pop alone on a queue that holds something returns the oldest item and removes that one, shut down or not. |
| `QueueLaws.PopReturnsNothing` | include/libe3/lockfree_queue.hpp:112-192 | A pop on an empty shut queue and a try_pop on any empty queue return nothing and leave the queue empty. |
| `QueueLaws.PopSleeps` | include/libe3/lockfree_queue.hpp:112-142 | A pop alone on any empty, open queue ends asleep without the mutex. |
| `QueueLaws.PopGivesUp` | include/libe3/lockfree_queue.hpp:148-182 | A timed pop whose deadline has passed makes one last attempt and returns nothing. |
| `QueueLaws.ShutdownShuts` | include/libe3/lockfree_queue.hpp:213-222 | A shutdown leaves the flag up, the ring untouched, a parked consumer notified and nobody asleep. |
| `QueueLaws.RearmEmptiesAndOpens` | include/libe3/lockfree_queue.hpp:204-238 | A re-arm by the consumer leaves the queue empty and open, after six steps per item and five more. |
| `QueueLaws.SleeperTakes` | include/libe3/lockfree_queue.hpp:134-141 | A sleeper that was notified, or whose deadline has passed, returns the oldest item of a queue that holds one. |
| `QueueLaws.SleeperStops` | include/libe3/lockfree_queue.hpp:134-182 | On an empty queue it returns nothing if the queue is shut down or its deadline has passed. |
| `QueueLaws.SpuriousWakeIsNotification` | include/libe3/lockfree_queue.hpp:134-141 | A spurious wake-up leads where a notification leads: to another look under the mutex. |
| `QueueLaws.PushReachesSleeper` | include/libe3/lockfree_queue.hpp:82-142 | A push followed by the steps of the consumer it found asleep: the consumer returns the oldest item, which on an empty queue is the one just pushed. |
| `QueueLaws.ShutdownReachesSleeper` | include/libe3/lockfree_queue.hpp:112-222 | A shutdown followed by the steps of a consumer asleep on an empty queue: the consumer returns with nothing. |
| `SubscriptionManagement.LowestFreeId` | src/core/subscription_manager.cpp:23-29 | The scan returns the lowest id in 1..65535 not taken, 0 exactly when all are. |
| `SubscriptionManagement.SubscriptionManager.RegisterDapp` | src/core/subscription_manager.cpp:56-78 | Refines registration on the simple map: lowest free id, or an internal error with nothing changed. |
| `SubscriptionManagement.SubscriptionManager.UnregisterDapp` | src/core/subscription_manager.cpp:80-134 | Refines removal of a dApp with all its subscriptions; exactly the functions left empty are stopped, once each. |
| `SubscriptionManagement.SubscriptionManager.AddSubscription` | src/core/subscription_manager.cpp:155-240 | Refines a new subscription, an in-place renewal of an expired one and a repeat of a live one, with codes, ids and callbacks; all five indexes stay coherent. |
| `SubscriptionManagement.SubscriptionManager.RemoveSubscription` | src/core/subscription_manager.cpp:288-328 | Refines removal of one pair, with the stop callback exactly when it was the function's last. |
| `SubscriptionManagement.SubscriptionManager.RemoveSubscriptionById` | src/core/subscription_manager.cpp:330-377 | Refines removal by id, which succeeds exactly for an id this dApp owns. |
| `SubscriptionManagement.SubscriptionManager.ExpireSubscriptions` | src/core/subscription_manager.cpp:242-286 | Removes exactly the pairs whose end is not after the given time, reports each once under its id, and stops exactly the functions left empty. |
| `SubscriptionManagement.SubscriptionManager.GetSubscribedDapps` | src/core/subscription_manager.cpp:399-418 | Returns, without repetition, exactly the dApps subscribed to the function with no end or one after the given time, swept or not. |
| `SubscriptionManagement.SubscriptionManager.CheckSmLifecycle` | src/core/subscription_manager.cpp:498-517 | Issues start exactly when the function gained its first subscriber, stop exactly when it lost its last. |
| `SubscriptionIndexes.KeyRoundTrip` | include/libe3/subscription_manager.hpp:309-312 | Packing a (dApp, function) pair into a key and unpacking it are inverse, both ways. |
| `SubscriptionIndexes.InsertCoherent` | src/core/subscription_manager.cpp:214-223 | Writing one new row under an unused id into all five indexes keeps them coherent. |
| `SubscriptionIndexes.InsertRelation` | src/core/subscription_manager.cpp:214-223 | It adds exactly that pair, with its id and details, to the relation the indexes describe. |
| `SubscriptionIndexes.EraseCoherent` | src/core/subscription_manager.cpp:297-317 | Erasing one row from all five indexes keeps them coherent. |
| `SubscriptionIndexes.EraseRelation` | src/core/subscription_manager.cpp:297-317 | It removes exactly that pair from the relation. |
| `SubscriptionTheorems.AllocationIsExact` | src/core/subscription_manager.cpp:207-212 | A new subscription gets the lowest id that is not live, and is refused exactly when all 65535 are live. |
| `SubscriptionTheorems.RelationStaysInjective` | src/core/subscription_manager.cpp:56-377 | Through every run the relation is injective, over registered dApps only, with all ids in 1..65535. |
| `SubscriptionTheorems.CallbacksAlternate` | src/core/subscription_manager.cpp:498-517 | Through every run each function's callbacks strictly alternate start, stop, ...; the last is a start exactly while it has a subscriber. |
| `SubscriptionTheorems.RepeatsAreSilent` | src/core/subscription_manager.cpp:170-201 | Renewing or repeating a subscription issues no callback and keeps the id; a repeat of a live one changes nothing at all. |
| `SubscriptionTheorems.SweepIsTransparent` | src/core/subscription_manager.cpp:242-286 | A sweep removes exactly the expired pairs, and at any later time the recipients are the same with or without it. |
| `SubscriptionLaws.LiveExactly` | src/core/subscription_manager.cpp:399-418 | A dApp is a recipient exactly if it is subscribed to the function and its subscription has no end or one still to come. |
| `SubscriptionLaws.SubscribersExactly` | src/core/subscription_manager.cpp:498-517 | A function's subscribers, on which its callbacks depend, are exactly the dApps with a pair for it. |
| `SubscriptionLaws.AddExactly` | src/core/subscription_manager.cpp:155-240 | What is stored: the lists and period asked for, and an end as many seconds from now as asked for, or none for zero; a repeat is reported exactly while the old end is still to come. |
| `SubscriptionLaws.RemoveExactly` | src/core/subscription_manager.cpp:288-328 | Removing a pair removes that pair and nothing else. |
| `SubscriptionLaws.UnregisterExactly` | src/core/subscription_manager.cpp:80-134 | An unregistered dApp is gone with all its pairs; no other dApp loses anything. |
| `SubscriptionLaws.SweepExactly` | src/core/subscription_manager.cpp:242-286 | A sweep removes exactly the pairs whose end is not after its time. |
| `SubscriptionLaws.ServedExactlyUntilTheEnd` | src/core/subscription_manager.cpp:155-418 | Along every run that spares the pair, a subscription for s seconds is served exactly until s seconds after it was made, and one for zero seconds always, swept or not. |
| `SweepTransparency.SweepsAreTransparent` | src/core/subscription_manager.cpp:399-418 | Two managers get the same register, unregister, add, remove and delete calls on one clock and one is swept at any times: at every later time every function has the same recipients in both, the exception apart. |
| `SweepTransparency.TransparentExactly` | src/core/subscription_manager.cpp:207-212 | They differ for the first time exactly when the unswept manager refuses a first subscription for want of ids and the swept one does not. |
| `SweepTransparency.SweepingFirstMatters` | src/core/subscription_manager.cpp:207-212 | A sweep just before an add changes its outcome exactly if the pair is new, all 65535 ids are in use and some of them have run out. |
| `SweepTransparency.ExceptionHappens` | src/core/subscription_manager.cpp:207-212 | After 65535 one-second subscriptions the exception occurs. |
| `E3Messages.IdsDistinctExactly` | src/core/e3_interface.cpp:156-164 | Message ids are non-zero and pairwise distinct for exactly the first 2^32 - 1 calls. |
| `E3Messages.MessageIds.Generate` | src/core/e3_interface.cpp:156-164 | The n-th call returns the n-th id, across restarts. |
| `E3Messages.MessageIds.Sanitize` | src/core/e3_interface.cpp:178-185 | A non-zero request id is echoed and uses no id; zero is replaced by the next generated one. |
| `RanHandlers.RanInterface.HandleSetupRequest` | src/core/e3_interface.cpp:903-1000 | A positive reply carries a newly registered id distinct from every live dApp's; a negative one is sent exactly when all ids are taken and changes nothing. |
| `RanHandlers.RanInterface.RefusalFor` | src/core/e3_interface.cpp:869-895 | There is no cause exactly if the function is served, something is asked for and everything asked for is offered; otherwise the cause of the first test that fails. |
| `RanHandlers.RanInterface.HandleSubscriptionRequest` | src/core/e3_interface.cpp:1053-1126 | State and reply are those of the simple answer function. |
| `RanHandlers.RanInterface.HandleSubscriptionDelete` | src/core/e3_interface.cpp:1128-1169 | State and reply are those of the simple answer function. |
| `RanAnswers.PositiveAnswersNameTheSubscription` | src/core/e3_interface.cpp:1053-1126 | A positive reply names an id that the manager maps to exactly that dApp and function. |
| `RanAnswers.AnswersAreExact` | src/core/e3_interface.cpp:1053-1126 | A negative reply carries a cause and changes nothing, no reply touches another pair, and it is positive exactly when the dApp is registered, the request servable and an id held or free. |
| `RanAnswers.RefusedExactly` | src/core/e3_interface.cpp:869-1126 | Exactly when a request is granted, and for each way to fail, in order of the tests, which cause is given: no setup, no such function, nothing asked for, something not offered, no id left. |
| `RanAnswers.DeletesStayWithinTheDapp` | src/core/e3_interface.cpp:1128-1169 | A delete succeeds exactly for an id the dApp owns, removes that one subscription and never another dApp's; the reply echoes the request, the dApp and the id. |
| `DAppState.DeadlinesStayHeld` | include/libe3/dapp_subscription_state.hpp:77-149 | Every deadline key is a held RAN function, through every operation. |
| `DAppState.RecordKeepsInverseExactly` | include/libe3/dapp_subscription_state.hpp:77-88 | Recording keeps the two maps inverse exactly when it repeats a held pair or both ids are new. |
| `DAppState.RemovalsKeepInverse` | include/libe3/dapp_subscription_state.hpp:95-149 | Both removals and expiry keep inverse maps inverse. |
| `DAppState.ReusedIdLosesReverseEntry` | include/libe3/dapp_subscription_state.hpp:77-113 | A concrete sequence after which a held function has no reverse entry. |
| `DAppState.RecordExactly` | include/libe3/dapp_subscription_state.hpp:77-88 | Recording sets the function's id, the id's function and the deadline or none, and touches no other function or id. |
| `DAppState.ExpiresExactly` | include/libe3/dapp_subscription_state.hpp:95-113 | After expiry, held are exactly the functions without a deadline or with one still to come, with ids and deadlines as before. |
| `DAppState.ForgetByRfExactly` | include/libe3/dapp_subscription_state.hpp:119-133 | Removing a function ends it, its deadline and its id's reverse entry, and nothing else. |
| `DAppState.ForgetByIdExactly` | include/libe3/dapp_subscription_state.hpp:136-149 | Removing an id ends it and the function it stands for with its deadline, and nothing else. |
| `DAppState.ForgetNothing` | include/libe3/dapp_subscription_state.hpp:119-149 | Removing what is not held changes nothing. |
| `DAppState.DAppSubscriptionState.RecordSubscription` | include/libe3/dapp_subscription_state.hpp:77-88 | Updates the three maps in place as the value form says. |
| `DAppState.DAppSubscriptionState.ExpireSubscriptions` | include/libe3/dapp_subscription_state.hpp:95-113 | The erase-while-iterating loop forgets exactly the functions whose deadline has come and reports each once. |
| `DAppState.DAppSubscriptionState.RemoveSubscriptionByRf` | include/libe3/dapp_subscription_state.hpp:119-133 | Removal by function, in place, as the value form says. |
| `DAppState.DAppSubscriptionState.RemoveSubscriptionById` | include/libe3/dapp_subscription_state.hpp:136-149 | Removal by id, in place, as the value form says. |
| `DAppSession.HeldFunctionsWereRequested` | src/core/e3_interface.cpp:1524-1571 | Over any run with forged, misaddressed, duplicated, reordered or stale responses and restarts, every held function was granted by a positive response, addressed to the id the dApp had then, carrying the id of a request for that function issued in the current session. |
| `DAppSession.ReceiveExactly` | src/core/e3_interface.cpp:1524-1571 | A response for another dApp or to nothing pending changes nothing; any other uses up its request; a grant puts the function under the id named until as long from now as asked for, a confirmed delete ends it, and no other function is touched. |
| `DAppSession.AskingExactly` | src/core/e3_interface.cpp:1666-1726 | What is pending after a request or a delete, under which id, queued or not; without setup, or for a function not held, nothing is asked. |
| `DAppSession.SessionsEndExactly` | src/core/e3_interface.cpp:1478-1522 | A session gets its dApp id only from a positive setup reply; its end leaves no id, no subscription and no open request, and keeps the message counter. |
| `DAppSession.GrantsAreUnmistakable` | src/core/e3_interface.cpp:156-164 | As long as at most 2^32 - 1 ids have been used, no other request of any session carried that id. |
| `DAppSession.RequestsActOnce` | src/core/e3_interface.cpp:1524-1571 | Once a response has changed the record, no later response with the same request id does, while at most 2^32 - 1 ids have been used. |
| `DAppSession.StaleAnswerIsTaken` | src/core/e3_interface.cpp:156-164 | A run that uses one id more: the answer to an earlier session's request for one function is accepted for another function. |
| `DAppInterface.DAppInterface.QueueSubscriptionRequest` | src/core/e3_interface.cpp:1666-1702 | The request is remembered under the next id exactly if it could be queued; refused before setup. |
| `DAppInterface.DAppInterface.QueueSubscriptionDelete` | src/core/e3_interface.cpp:1704-1726 | A delete of a held function goes out under its current id; anything else changes nothing. |
| `DAppInterface.DAppInterface.HandleSubscriptionResponse` | src/core/e3_interface.cpp:1524-1571 | A response acts exactly if it names this dApp and a pending request, which it uses up. |
| `DAppInterface.DAppInterface.HandleSetupResponse` | src/core/e3_interface.cpp:1512-1522 | A positive response records the assigned id, a refusal changes nothing. |
| `DAppInterface.DAppInterface.OnRanGone` | src/core/e3_interface.cpp:1478-1487 | The first notice ends the session; later ones change nothing. |
| `DAppInterface.DAppInterface.Start` | src/core/e3_interface.cpp:310-319 | A restart clears record and pending requests but not the id counter. |
| `TwoParty.RunInv` | src/core/e3_interface.cpp:1053-1169 | The joint invariant of RAN, dApp and messages in flight, responses to other dApps among them, holds along every careful run, on the first 2^32 - 1 message ids. |
| `TwoParty.DisciplinedRunInv` | src/core/e3_interface.cpp:1053-1169 | A dApp that never asks again is careful, and never has an open request about what it holds. |
| `TwoParty.DeadlinesAreNeverEarly` | src/core/e3_interface.cpp:1548-1566 | Along every run of at most 2^32 - 1 ids in which the dApp never asks again for what it holds or has pending: what it holds and the RAN still has is the same subscription, and its deadline is not before the RAN's. |
| `TwoParty.DeadlinesSettleInOrder` | src/core/subscription_manager.cpp:197-200 | The same, whenever no request about the function is open, for a dApp that asks again only for an end no earlier than its own deadline. |
| `TwoParty.RenewalsAreNeverTheDyingSubscription` | src/core/subscription_manager.cpp:170-201 | Along every run of at most 2^32 - 1 ids in which the dApp never asks again, swept or not, a request the RAN handles finds no live subscription; a positive answer names an entry whose deadline is counted from that moment. |
| `TwoParty.LiveSubscriptionsAreKnown` | src/core/e3_interface.cpp:1524-1571 | Along every careful run, whatever is live at the RAN is held by the dApp or has an open request. |
| `TwoPartyRuns.EarlierEndBreaks` | src/core/subscription_manager.cpp:197-200 | For every first and second length and time with an earlier new end, a run, careful up to that request, after which the dApp's deadline is before the RAN's. |
| `TwoPartyRuns.RenewalRunsAhead` | src/core/subscription_manager.cpp:183-196 | A careful run in which, while a request is open, the RAN has renewed beyond the deadline the dApp has on record. |
| `Framing.SendInChunks` | src/connector/posix_connector.cpp:913-953 | Whatever the kernel does, a prefix of the frame goes out, and the call answers 0 exactly when it is the whole frame. |
| `Framing.EnoughCallsSendEverything` | src/connector/posix_connector.cpp:928-950 | Short writes and interruptions do not stop a send: one productive call per byte suffices. |
| `Framing.ReadExactly` | src/connector/posix_connector.cpp:959-974 | The read loop collects the next bytes of the stream in order, never more than wanted, and stops short only at end or error. |
| `Framing.RecvWithSize` | src/connector/posix_connector.cpp:955-999 | A message is delivered only if it is the complete next frame; without kernel errors the answer is exactly what the stream says. |
| `Framing.ReceiveLoop` | src/connector/posix_connector.cpp:955-999 | A loop of receives under any kernel answers delivers a prefix of the complete messages of the stream; with reliable ones, all of them and then the error the stream ends with. |
| `Framing.DeliveredIsPrefix` | src/connector/posix_connector.cpp:913-999 | What such a loop delivers from the frames of some messages, cut anywhere, is a prefix of those messages. |
| `Framing.PrefixRoundTrip` | src/connector/posix_connector.cpp:919-919 | Reading a 4-byte big-endian prefix gives back the length written. |
| `Framing.PrefixIsUnique` | src/connector/posix_connector.cpp:919-919 | Every four bytes are the prefix of the length they read as. |
| `Framing.PrefixIsMostSignificantFirst` | src/connector/posix_connector.cpp:919-919 | The prefix is the length with the most significant byte first. |
| `Framing.FrameRoundTrip` | src/connector/posix_connector.cpp:975-979 | One frame is read back as written exactly when its payload is 1 to 65536 bytes, whatever follows. |
| `Framing.DeliveredWasFramed` | src/connector/posix_connector.cpp:975-979 | A message is delivered only from a stream that starts with its frame. |
| `Framing.ParseErrors` | src/connector/posix_connector.cpp:955-999 | A stream that ends inside a header is a closed connection; a length of zero, above 65536 or beyond the end is a transport error, with the header used up. |
| `Framing.StreamRoundTrip` | src/connector/posix_connector.cpp:913-999 | Any sequence of sendable messages is received complete and in order. |
| `Framing.CutStreams` | src/connector/posix_connector.cpp:955-999 | A stream cut at any byte delivers exactly the complete frames, then an error: closed if less than a header is left, a transport error otherwise. |
| `Broadcast.RanOutbound.Send` | src/connector/posix_connector.cpp:642-700 | Cancelled, not connected, success and transport error each exactly when they are due; a broadcast accepts, writes and drops as the value form says and keeps every stream right. |
| `Broadcast.RanOutbound.Offer` | src/connector/posix_connector.cpp:676-690 | The erase-in-place loop keeps, in order, exactly the peers that took the whole frame, and writes to each what its own kernel calls let through. |
| `Broadcast.SentKeepsStreams` | src/connector/posix_connector.cpp:642-700 | A broadcast keeps every connection's stream: all frames since it was accepted, cut only at the end if dropped; no failure alters another stream. |
| `Broadcast.EveryDappReceivesItsMessages` | src/connector/posix_connector.cpp:642-700 | Over any run of broadcasts, an attached dApp receives exactly the messages since it was accepted, a dropped one exactly those up to the drop, then an error. |
| `PeerScan.RanInbound.Receive` | src/connector/posix_connector.cpp:485-570 | One call: result, peer list and cursor as the value form of the scan says; timeouts and poll errors change nothing. |
| `PeerScan.RanInbound.Scan` | src/connector/posix_connector.cpp:515-570 | The rotating loop serves the first peer with data from the cursor on, drops the broken ones it passes, and moves the cursor. |
| `PeerScan.NearestIsServed` | src/connector/posix_connector.cpp:519-550 | The peer served is the one with data nearest to the cursor; nobody is served only if nobody has data. |
| `PeerScan.GoneExactly` | src/connector/posix_connector.cpp:551-563 | Dropped are exactly the broken peers with nothing to read that the scan passed. |
| `PeerScan.Look` | src/connector/posix_connector.cpp:524-538 | One peer: the bytes a read yields, and, if none, broken exactly if it hung up or its read yielded anything but "not now". |
| `PeerScan.ServedExactly` | src/connector/posix_connector.cpp:519-550 | Somebody is served exactly if a read of some readable peer yields bytes. |
| `PeerScan.StaysExactly` | src/connector/posix_connector.cpp:551-563 | A polled peer stays attached exactly if somebody no further than it was served, or it has not hung up and is silent or has nothing to read right now. |
| `PeerScan.NextScanStarts` | src/connector/posix_connector.cpp:546-570 | The next scan starts behind the peer served, or one further than this one if nobody was. |
| `PeerScan.BoundedWaiting` | src/connector/posix_connector.cpp:515-570 | On an unchanged list of n peers, one with data at every call is read within its distance from the cursor plus one, so within n calls. |
| `PeerScan.WaitingWithChanges` | src/connector/posix_connector.cpp:515-570 | On a list of at most n peers that drops and arrivals change d times, a peer with data at every call is read within its distance plus d times n calls. |
| `PeerScan.DropPassesOver` | src/connector/posix_connector.cpp:546-563 | With a broken peer in front of three busy ones, the peer behind the one read first is passed over. |
| `PeerScan.StrictRotation` | src/connector/posix_connector.cpp:515-570 | With every peer always busy the peers are served in strict rotation, so the bound is reached. |
| `Utf8.IsUtf8` | src/encoder/asn1_encoder.cpp:79-101 | Accepts exactly the byte strings of the grammar in section 4 of RFC 3629. |
| `Utf8.RangeIsGrammar` | src/encoder/asn1_encoder.cpp:88-98 | Decoding the code point and checking its range draws the same line as the grammar's byte ranges. |
| `Utf8.SetReason` | src/encoder/asn1_encoder.cpp:105-122 | The text sent is the prefix up to the last boundary within 512 bytes; nothing for an absent or empty text. |
| `Utf8.CutIsLongestText` | src/encoder/asn1_encoder.cpp:111-120 | For valid text that prefix is the longest valid one of at most 512 bytes: all of it if it fits, else at least 509 bytes. |
| `Utf8.GetReason` | src/encoder/asn1_encoder.cpp:125-133 | A received text is passed on unchanged if it is non-empty UTF-8, else dropped. |
| `LatencyRing.Ring.StampAt` | include/libe3/latrec.h:593-614 | Appends one record to the log the slots stand for, with a zero stamp replaced; a disabled ring is left alone. |
| `LatencyRing.Ring.Heartbeat` | include/libe3/latrec.h:637-644 | Publishes the number of records written so far. |
| `LatencyRing.FullRing` | include/libe3/latrec.h:597-598 | A ring written at least once around holds its newest lap first and behind it what is left of the lap before. |
| `LatencyRing.PackRoundTrip` | include/libe3/latrec.h:604-606 | Unpacking gives the sequence number modulo 2^48, the cpu modulo 256 and the stage; they sit in the word from bit 0, 48 and 56 on. |
| `LatencyRing.ReadRing` | tools/latrec_reader.py:176-191 | Filter, descent search and rotation compute the value form. |
| `LatencyRing.WrappedExactly` | tools/latrec_reader.py:186-191 | For stamps in time order there is one descent, at the wrap point, if the ring is offset and its stamps span some time, and none otherwise. |
| `LatencyRing.RecoveryExactly` | tools/latrec_reader.py:182-191 | The reader restores the last min(m, N) records to write order exactly if the ring is not offset, or its oldest kept stamp is below its newest, or the records repeat so that no order shows. |
| `LatencyRing.ReportsInOrder` | tools/latrec_reader.py:176-191 | Under that condition the reported records are the unpacked last min(m, N) records in write order. |
| `LatencyRing.WrappedFlag` | tools/latrec_reader.py:105-107 | Lost records are m minus those kept; the `wrapped` flag implies loss, and exactly which rings with losses it misses. |
| `Pacer.WorkerLoop` | examples/sm_simple/simple_service_model.hpp:223-255 | The loop's emission times are those of the value form, for any delays, stalls and skipped cycles. |
| `Pacer.OneEmissionEach` | examples/sm_simple/simple_service_model.hpp:257-260 | One indication per cycle that finds a subscriber, and none otherwise. |
| `Pacer.EmissionsAreSpaced` | examples/sm_simple/simple_service_model.hpp:239-255 | Emissions i < j are at least (j - i - 1) periods apart. |
| `Pacer.WindowsHoldFew` | examples/sm_simple/simple_service_model.hpp:212-222 | Any window of length W holds at most floor(W / period) + 2 emissions. |
| `Pacer.BoundsAreReached` | examples/sm_simple/simple_service_model.hpp:218-222 | One wake-up a period late and then none: n + 1 emissions that meet the spacing bound and the window bound with equality, for every n. |
| `Pacer.NoDrift` | examples/sm_simple/simple_service_model.hpp:212-217 | A worker that is never behind has its n-th deadline exactly n periods after the start. |
| `Pacer.GapExactly` | examples/sm_simple/simple_service_model.hpp:239-255 | Over every run, emissions k and k + 1 are a full period apart exactly if a cycle was skipped between them, or the second is no less late than the first, or, behind schedule, its cycle took a period of its own. |

## Left out

- Relaxed memory orderings and 64-bit counter wrap-around in the ring: steps are sequentially consistent and counters unbounded.
- WakeupProof.NoLostWakeup: for one consumer, which is how both queues of the library are used; several sleeping consumers are not modelled.
- `SubscriptionManager::clear`, which issues no callbacks, and the plain lookups of the manager.
- Interleavings of lifecycle callbacks with other calls after the manager's lock is released: each call and its callbacks are one step.
- RanHandlers.RanInterface.HandleSetupRequest: the list of RAN functions in the reply and the encoding of the reply are not modelled, because they copy fields of the Service Models into a foreign encoder.
- Texts of refusals on the RAN, status notifications and the queueing of replies.
- RanHandlers.RanInterface.HandleSubscriptionRequest: the identifier lists, function and periodicity that a positive reply echoes are not modelled, because they are copied from the request.
- TwoParty.RunInv: within one session of one dApp, with other dApps as an arbitrary environment; setup, release and restarts are in `DAppSession` only.
- Framing.SendInChunks: a call that never returns is a plan that runs out, which counts as a failure.
- Socket, ZMQ and IPC setup, timeouts, permissions and thread placement: operating-system calls.
- The dApp's unframed sends and the RAN's raw reads: no message boundaries are promised there.
- APER, Protocol Buffers and JSON encodings, and the numeric values of causes: foreign code and field copies.
- LatencyRing.ReadRing: reads a ring nobody is writing; file header, mapping, CSV conversion and the clock fit of `mono_to_real_ns` would add only arithmetic.
- LatencyRing.Ring.StampAt: the bit fields are written as sums and remainders; the record index does not wrap at 2^64.
- Pacer.WorkerLoop: the ping-pong mode, which is paced by control actions and not by time.
- SmRegistry, E3Agent, the C API and the SWIG facades: thin delegation.
