# Verification of the security event hub, its tokens and its retry library

This Dafny project models three parts of the repository and proves what they promise.

**The hub.** A hub takes in security events, selects the registered receivers whose subscription and filters
fit, counts the event at each and publishes one message to a topic shared by all hubs. Every hub pulls from
the topic through a subscription of its own, skips its own and expired messages, looks the targets up again
in its registry and starts one retrying webhook delivery for each. `Registry.dfy` has the registry as a heap
of receiver objects, refining the tables of `ReceiverTable.dfy`; `PubSub.dfy` the in-memory topic and
`Subscription.dfy` whole runs of one subscription, with failing handlers and publishers in between;
`Broker.dfy`, `Distributor.dfy` and `HubReceiver.dfy` the methods of one hub taken one at a time.
`HubNode.dfy` has the same hub as a state machine whose steps are single critical sections and counter
updates, `Cluster.dfy` any number of hubs on one topic, `HubTheorems.dfy` what holds of every state such a
cluster can reach, and `HubDelivery.dfy` and `HubExpiry.dfy` which targets get their delivery over one handler
call, and for how long. `Agreement.dfy` shows that steps and methods agree when nobody interferes. `Filters.dfy`
and `Registration.dfy` state what filters and registrations mean in terms of events and settings alone.
`Lifecycle.dfy` is the starting and stopping of consumers.

**The tokens.** `Subject.dfy` has subject identifiers of any nesting depth with their two printers, parser
and validator, `ComplexSubject.dfy` the object that is parsed in place. `Events.dfy` has three CAEP events,
payload and metadata flattened into one object, and the dispatch on the event type. `Token.dfy` has tokens
with one event or several, `TokenObject.dfy` the token as an object. All work on the JSON trees of
`Json.dfy`; the theorems are in the files named `...Theorems.dfy`.

**The arithmetic.** `Backoff.dfy` has the two exponential backoffs, `Retry.dfy` the retry loop with the
response bodies it holds, `IdGenerator.dfy` the ID generators, `Validation.dfy` the comparison of event types.

`Wrappers.dfy`, `Sequences.dfy`, `Sums.dfy` and `TrimSpace.dfy` hold what these share.

## What the code does that its documentation does not say

- A receiver subscribed to "*" is accepted by the distributor and never selected by the registry, so it gets
  nothing (`Routing.WildcardIsNeverSelected`).
- The filter operator "contains" tests for a suffix (`Models.ContainsIsSuffix`).
- A filter on a field that the event does not have lets the event pass, whatever the operator, unless it asks
  whether the field exists (`Filters.MissingAndPresent`).
- A hub alone on its topic delivers nothing, since it skips the messages it stamped itself
  (`HubTheorems.LoneHubIsSilent`).
- Messages are told apart by IDs made from the clock; a repeated ID loses a message unless both fall into one
  pull, of at most 100 messages in a hub (`PubSub.DrainsExactlyWhen`; ssf-hub/internal/hubreceiver/hubreceiver.go:157).
- A hub receiver can be started as long as it was never stopped, and not again afterwards: its stop channel
  stays closed (`Lifecycle.StartsExactlyWhenOpen`).
- The comparison of event types takes lists for equal that are not when the second has a duplicate, and can
  depend on the order of its arguments (`Validation.DecidesPermutationExactlyWhen`, `Validation.MatchIsSymmetric`).
- A receiver update through the broker sets the status back to active (`ReceiverTable.BrokerUpdateReactivates`)
  and drops the last delivery error; a registry update stores whatever error its record carries
  (`ReceiverTable.ErrorAfterUpdate`).
- The parser rejects four of the formats that the constructors and printers support
  (`SubjectTheorems.BuiltRoundTrip`).
- A new credential change event carries the type of an assurance level change and is never accepted back
  (`EventTheorems.NewCredentialChangeIsLost`).
- The retry loop makes MaxRetries+1 calls and reports MaxRetries of them (`Retry.AttemptsAreBounded`,
  `Retry.ErrorOf`), and leaves bodies open: the one it holds when it is cancelled, and any that comes together
  with an error (`Retry.LeaksExactly`).
- A token object parsed into twice keeps claims of the first tree that the second leaves out
  (`TokenObject.ReuseIsSafe`), which can make up for a missing issuer, ID or subject
  (`TokenObject.AcceptedInPlaceIsValid`), and a complex subject its components (`ComplexSubject.ReuseIsSafe`).
- A random ID cannot be made for an odd hex length or a base64 length of 1 modulo 4
  (`IdGenerator.SliceInBounds`).

## Model

| member | source | states |
|---|---|---|
| `HubTheorems.DeliveryBooks` | ssf-hub/internal/distributor/distributor.go:157-260 | In every state any interleaving of any hubs can reach, attempts = successes + failures + attempts awaiting their verdict; the receivers' delivered and failed counts never exceed the distributor's, the difference being reports under way and counts that left with unregistered receivers |
| `HubTheorems.SettledBooksAgree` | ssf-hub/internal/distributor/distributor.go:157-260 | With nothing in flight and nothing ever unregistered the two sets of counts are equal |
| `HubTheorems.ReceiverBooks` | ssf-hub/internal/registry/registry.go:233-280 | For a receiver that was never unregistered, whoever else was: received events = the calls that have counted their event there, at any time; delivered events = its successful deliveries and failed events = its failed attempts, once settled |
| `HubTheorems.ReceivedBooks` | ssf-hub/internal/controller/broker.go:160-184 | Events counted as received cover the targets of every message the hub published, and equal them when no call is half way and nothing was unregistered |
| `HubTheorems.Consumption` | ssf-hub/internal/hubreceiver/hubreceiver.go:161-209 | Each hub's processed list is a front of the topic's log while others publish; what it passed on is exactly the foreign, unexpired part of what it handled; received = processed + failed + skipped + in progress, and failed is 0 |
| `HubTheorems.ChosenMembers` | ssf-hub/internal/hubreceiver/hubreceiver.go:173-190 | A message is passed on if and only if it stands at a handled place of the log, was stamped by another hub, and had not expired when handled |
| `HubExpiry.PassedOnForADay` | ssf-hub/internal/hubreceiver/hubreceiver.go:161-219 | In every reachable state a hub has passed on, of the messages it has handled, exactly those that another hub published at most 24 hours before, to the nanosecond |
| `HubExpiry.PublishedForADay` | ssf-hub/pkg/models/event.go:250-274 | What one hub publishes at a time t every other hub wants up to t + 24 hours and never after, and the hub itself never |
| `HubExpiry.AgeDecides` | ssf-hub/internal/hubreceiver/hubreceiver.go:212-219 | A message without a time to live is never too old; any other exactly when it is older than that |
| `HubTheorems.LoneHubIsSilent` | ssf-hub/internal/hubreceiver/hubreceiver.go:173-178 | A hub alone on its topic never distributes, delivers or attempts anything |
| `HubDelivery.TargetsAreDeliveredAsLookedUp` | ssf-hub/internal/distributor/distributor.go:79-116 | Over one handler call, whatever this hub and all others do meanwhile, registrations, updates and removals included: every listed target is looked up once, in order, has a delivery of the message if and only if the distributor accepts it in the registry of that moment, and never two |
| `HubDelivery.EveryRoutedTargetIsDelivered` | ssf-hub/internal/distributor/distributor.go:79-116 | While nobody changes this hub's routes during the call, that is whether the distributor accepts it at the beginning |
| `HubDelivery.MessagesDoArrive` | ssf-hub/internal/hubreceiver/hubreceiver.go:161-209 | Between any two hubs of a cluster, an event for a receiver both know can be published by one and delivered by the other: a reachable state shows it in the metrics and at the receiver |
| `HubTheorems.DeliveriesAreWanted` | ssf-hub/internal/distributor/distributor.go:79-116 | No two deliveries of a hub are for the same message and receiver; each is for a listed target of a foreign, unexpired message; there are no more of them than targets of messages passed on |
| `HubTheorems.DeliveryOutcome` | ssf-hub/internal/distributor/distributor.go:157-260 | At most MaxRetries+1 attempts, only the last can succeed, and a closed delivery either succeeded or failed in all of them; with negative MaxRetries nothing is attempted |
| `HubTheorems.AttemptsAreBounded` | ssf-hub/internal/distributor/distributor.go:160-177 | Attempts of a hub are at most (MaxRetries+1) times the targets of the messages it passed on |
| `HubTheorems.OpenDeliveryCanStep` | ssf-hub/internal/distributor/distributor.go:157-260 | A delivery that has not ended always has a step it can take, whatever everyone else does |
| `HubTheorems.DeliveriesMoveOn` | ssf-hub/internal/distributor/distributor.go:157-260 | No move of anyone takes a delivery back; each of its own steps brings it nearer its end, which is at most four steps per permitted attempt away |
| `HubTheorems.HubInvariantHolds` | ssf-hub/internal/hubreceiver/hubreceiver.go:121-209 | Every hub satisfies its whole invariant in every reachable state |
| `Cluster.ReachableIsSafe` | ssf-hub/internal/controller/broker.go:80-201 | The cluster invariant holds of every reachable state: distinct message IDs, stamps of known hubs, every hub's invariant, every hub's ledger of published targets |
| `Cluster.MoveKeepsInv` | ssf-hub/internal/pubsub/mock_client.go:84-107 | Any one move, publishing included, keeps the cluster invariant |
| `Cluster.PublisherLedger` | ssf-hub/internal/controller/broker.go:160-184 | Publishing moves a call's targets into the log, so the ledger of published targets stays exact |
| `HubSafety.StepKeepsNodeInv` | ssf-hub/internal/distributor/distributor.go:157-260 | Any one step of a hub keeps its whole invariant |
| `HubSafety.AppendKeepsNodeInv` | ssf-hub/internal/pubsub/mock_client.go:84-107 | A message appended by another hub does not disturb a hub |
| `HubSafety.ChosenStays` | ssf-hub/internal/hubreceiver/hubreceiver.go:161-209 | What has been passed on never depends on later messages |
| `HubInvariant.ConsumingKept` | ssf-hub/internal/pubsub/mock_client.go:174-195 | Pulls and marks keep processed list and batch consecutive slices of the log |
| `HubInvariant.RunsKept` | ssf-hub/internal/distributor/distributor.go:79-116 | Every step keeps deliveries in shape, distinct, and absent for the targets still to come |
| `HubInvariant.CountedKept` | ssf-hub/internal/distributor/distributor.go:177-206 | Every step keeps the three metrics equal to the sums over deliveries |
| `HubBooks.BookedKept` | ssf-hub/internal/registry/registry.go:233-280 | Every step, registration and removal included, keeps registry counters plus removed counts equal to the reports made |
| `HubReceivers.ReceiversBookedKept` | ssf-hub/internal/registry/registry.go:139-168 | Every step keeps the counters of each receiver that was never unregistered equal to the reports about it; updates, status changes and the removal of others leave them alone |
| `Agreement.StepsAgreeWithHandler` | ssf-hub/internal/distributor/distributor.go:79-116 | Taken without interference, the steps of one handler call start the same deliveries, in order, as the distributor's method |
| `Agreement.StepsAgreeWithCount` | ssf-hub/internal/distributor/distributor.go:176-225 | The three steps of an attempt have together the effect of the distributor's own bookkeeping for one attempt |
| `Agreement.SoloAgreesWithLoop` | ssf-hub/internal/distributor/distributor.go:157-260 | A delivery taken by its own steps alone makes as many attempts as the retry loop, leaves the registry as the loop does, and succeeds exactly when the loop reports it delivered |
| `Agreement.CallsBeginWithASelection` | ssf-hub/internal/controller/broker.go:132-162 | A publishing call goes on with exactly the non-empty lists that selection can return |
| `Agreement.AdministrationIsAlwaysPossible` | ssf-hub/internal/registry/registry.go:70-168 | Updates, removals and status changes are possible in every state, registrations with counters at zero |
| `Agreement.ConsumerStepsInTurn` | ssf-hub/internal/pubsub/mock_client.go:172-203 | In every state the consumer has exactly one step: pull when its batch is used up, mark, handle, go through the targets, come back |
| `Broker.Broker.ProcessSecurityEvent` | ssf-hub/internal/controller/broker.go:128-201 | Counts the event once at each selected receiver and appends one message with exactly these targets; without receivers it changes nothing; the broker stays valid, so calls can follow each other |
| `Broker.Broker.RegisterReceiver` | ssf-hub/internal/controller/broker.go:204-254 | Refines the table operation on the request with its defaults, with the same errors; the receiver returned is the stored object itself, and the broker stays valid, so it can process events for the newcomer |
| `Broker.Broker.UpdateReceiver` | ssf-hub/internal/controller/broker.go:292-346 | An unknown ID is refused before validation; otherwise the table operation on the request, the broker staying valid |
| `Routing.RegisteredIsSelected` | ssf-hub/internal/controller/broker.go:204-254 | After a registration through the broker an event selects the receiver if and only if the request lists its type and all its filters match, and then the distributor accepts it; nobody else's selection changes |
| `Broker.Broker.SelectTargets` | ssf-hub/internal/controller/broker.go:132-162 | The targets are the receivers selection accepts, once each |
| `Broker.CountAtAllCounts` | ssf-hub/internal/controller/broker.go:160-177 | Counting raises each target's received count by one, nobody else's, and no setting |
| `Broker.EveryTargetIsDelivered` | ssf-hub/internal/distributor/distributor.go:79-116 | Against the registry it was published from, a message starts one delivery for every target |
| `Routing.SelectionIsDelivered` | ssf-hub/internal/registry/registry.go:314-330 | Every selected receiver passes the distributor's second look in the same registry, in order |
| `Routing.AcceptanceGap` | ssf-hub/internal/distributor/distributor.go:119-141 | The receivers the distributor would accept and selection leaves out are exactly the inactive ones and those subscribed by wildcard only |
| `Routing.WildcardIsNeverSelected` | ssf-hub/internal/registry/registry.go:171-193 | A receiver that does not name the type is never selected, "*" or not, though with "*" and fitting filters the distributor would accept it |
| `Models.ContainsIsSuffix` | ssf-hub/pkg/models/event.go:165-172 | The operator "contains" holds exactly of suffixes, so it differs from containment |
| `Filters.SelectedByOwnMember` | ssf-hub/pkg/models/event.go:127-162 | A listening receiver with one equality filter on a field every event has is selected if and only if the operand is the text of that very member, for each of the six fields |
| `Filters.SelectedByDottedField` | ssf-hub/pkg/models/event.go:142-157 | The same for entries of data, extensions and claims, a missing or nil entry letting the event pass |
| `Filters.DottedFields` | ssf-hub/pkg/models/event.go:142-157 | Which map a dotted name looks into, and that a name ending with its dot names nothing |
| `Filters.OtherFields` | ssf-hub/pkg/models/event.go:127-158 | No event has a field by any other name |
| `Filters.MissingAndPresent` | ssf-hub/pkg/models/event.go:104-108 | On a missing field every operator holds but "exists"; a field has one value |
| `Filters.InIsAnyEquals` | ssf-hub/pkg/models/event.go:181-192 | "in" holds of a present field if and only if equality with some item of the list does |
| `Filters.ContainsIsEndsWith` | ssf-hub/pkg/models/event.go:165-178 | "contains" and "matches" are the same and hold exactly of texts that end with the operand |
| `Filters.UnknownNeverMatches` | ssf-hub/pkg/models/event.go:121-123 | An unknown operator holds of nothing that is there |
| `Filters.FiltersAreJoined` | ssf-hub/internal/registry/registry.go:333-347 | Filters of two lists joined are both lists' filters |
| `Filters.SelectedByEveryFilter` | ssf-hub/internal/registry/registry.go:314-347 | A listening receiver is selected if and only if each of its filters alone would have it selected |
| `Filters.OnlyListenersAreSelected` | ssf-hub/internal/registry/registry.go:171-193 | Nobody is selected who is not active or does not list the type |
| `Distributor.EventDistributor.DistributeToReceivers` | ssf-hub/internal/distributor/distributor.go:79-116 | Starts deliveries for exactly the deliverable targets, in order, and never fails |
| `Distributor.EventDistributor.ShouldDeliver` | ssf-hub/internal/distributor/distributor.go:119-141 | The flag-setting scan decides type match by name or wildcard, and all filters |
| `Distributor.EventDistributor.PerformDelivery` | ssf-hub/internal/distributor/distributor.go:157-260 | The retry loop stops at the first attempt that ends it, is Delivered exactly when that one succeeded, waits by the backoff, with negative MaxRetries stays Pending, and moves metrics and registry by exactly its attempts |
| `Distributor.EventDistributor.Count` | ssf-hub/internal/distributor/distributor.go:176-215 | One attempt moves one verdict counter and one counter of the receiver, if it is still there |
| `Distributor.RoundKeeps` | ssf-hub/internal/distributor/distributor.go:182-258 | What one answer makes of a delivery under way: its end as specified, or the next wait and interval |
| `Distributor.FinishedIsUnique` | ssf-hub/internal/distributor/distributor.go:157-260 | That specification leaves no choice: it fixes the whole delivery record and the waits |
| `Distributor.UncancelledDelivery` | ssf-hub/internal/distributor/distributor.go:157-260 | Without cancellation: Delivered if and only if some permitted attempt succeeds, else Abandoned after MaxRetries+1 |
| `Distributor.DeliveryCounters` | ssf-hub/internal/registry/registry.go:250-280 | A delivery raises its receiver's counters by (1, attempts-1) or (0, attempts) and keeps everyone else's record and all settings |
| `Distributor.DefaultDelivery` | ssf-hub/internal/distributor/distributor.go:52-60 | A distributor without a policy makes at most four attempts, with waits of one, two and four seconds, and delivers if and only if one of the four succeeds |
| `Distributor.NoRetriesNoAttempt` | ssf-hub/internal/distributor/distributor.go:157-160 | With negative MaxRetries there is no attempt and no wait, and the record stays empty |
| `Distributor.ErrorMessageIsTheLast` | ssf-hub/internal/distributor/distributor.go:170-174 | The error message kept is that of the last attempt that had one |
| `Distributor.DeliveryLeaves` | ssf-hub/internal/registry/registry.go:250-280 | A delivery leaves the time of its last report and the error of its last failed attempt, which success does not clear |
| `HubReceiver.HubReceiver.ProcessInternalMessage` | ssf-hub/internal/hubreceiver/hubreceiver.go:161-209 | Every message is counted; one with another hub's stamp that has no time to live or is not older than it starts the specified deliveries and counts as processed, every other is skipped; nothing fails |
| `HubReceiver.HubReceiver.IsMessageExpired` | ssf-hub/internal/hubreceiver/hubreceiver.go:212-219 | True exactly when there is a positive time to live and the message is older than it |
| `PubSub.BatchIsNextSlice` | ssf-hub/internal/pubsub/mock_client.go:174-186 | With distinct IDs the quadratic membership scan is one cursor: a pull takes the next slice of the log, at least one message whatever its limit |
| `PubSub.BatchOfUnseen` | ssf-hub/internal/pubsub/mock_client.go:174-186 | The same for a log with repeated IDs, at a place after which none of the earlier IDs comes again |
| `PubSub.PullKeepsFront` | ssf-hub/internal/pubsub/mock_client.go:188-206 | A pull, whichever of its handler calls fail, keeps the processed list a front of the log, advances unless the log is used up, and marks the message whose handler failed too |
| `PubSub.PullsAdvance` | ssf-hub/internal/pubsub/mock_client.go:150-210 | n failure-free pulls of size m advance by exactly min(n*m, remaining) |
| `PubSub.DrainsExactlyWhen` | ssf-hub/internal/pubsub/mock_client.go:150-210 | For every log and pull size: pulling until the log is used up hands over every message if and only if messages that share an ID fall into one pull |
| `PubSub.RepeatIsLost` | ssf-hub/internal/pubsub/mock_client.go:236-246 | Two messages with one ID: pulled one at a time the second is lost, pulled together it is not |
| `PubSub.DrainingNeedsDistinctIds` | ssf-hub/internal/pubsub/mock_client.go:236-246 | Distinct IDs are enough at every size, and at size 1 they are needed |
| `Subscription.HandlersRunInPublishOrder` | ssf-hub/internal/pubsub/mock_client.go:84-107 | In every run in which no ID repeats, with messages appended at any time (between a mark and its handler too) and any handlers failing: the processed list is a front of the log, the batch the slice after it, the k-th handler call is for the k-th message, and none is handled twice |
| `Subscription.EveryReturnCounts` | ssf-hub/internal/pubsub/mock_client.go:188-203 | Each handler call that returns, with or without an error, adds exactly one handled message |
| `Subscription.NothingIsLost` | ssf-hub/internal/pubsub/mock_client.go:150-210 | After any such run the next pull goes on at the first message not handed over, so a failure costs no other message |
| `Subscription.HandledExactlyWhenDue` | ssf-hub/internal/pubsub/mock_client.go:236-246 | For any log, repeated IDs included: a message of it can still be handled, in some run with publishers and failing handlers, if and only if it is being handled, is in the batch, or its ID is neither processed nor that of the message the batch goes on with |
| `Subscription.StepsAgreeWithPull` | ssf-hub/internal/pubsub/mock_client.go:150-210 | Taken without interruption the steps of a pull leave the processed list as the mock client's pull does |
| `PubSub.HandedOverIsFront` | ssf-hub/internal/pubsub/mock_client.go:188-203 | Handlers get a front of the batch, in order, ending at the first failure |
| `PubSub.ErrorNamesTheFailure` | ssf-hub/internal/pubsub/mock_client.go:188-206 | A pull reports an error if and only if one of its handler calls failed, and it is that call's message |
| `PubSub.MockClient.PublishEvent` | ssf-hub/internal/pubsub/mock_client.go:84-107 | Appends one message stamped with this hub's ID to the current topic and touches no other log; a topic that was not there is a new object |
| `PubSub.MockClient.CreateHubSubscription` | ssf-hub/internal/pubsub/mock_client.go:110-136 | Keeps an existing subscription; a new one has processed nothing |
| `PubSub.MockClient.DeleteHubSubscription` | ssf-hub/internal/pubsub/mock_client.go:139-147 | Removes the subscription and nothing else |
| `PubSub.MockClient.Collect` | ssf-hub/internal/pubsub/mock_client.go:172-186 | The scanning loop collects the specified batch |
| `PubSub.MockClient.HandOver` | ssf-hub/internal/pubsub/mock_client.go:188-203 | Marks each message before its handler, stops at the first failure and reports it |
| `PubSub.MockClient.PullInternalMessages` | ssf-hub/internal/pubsub/mock_client.go:150-210 | A whole pull, with the errors for a missing subscription or topic; other subscriptions stay as they are |
| `PubSub.MockSubscription.MessageInSubscription` | ssf-hub/internal/pubsub/mock_client.go:236-246 | Finds a message by ID |
| `Registry.MemoryRegistry.Isolated` | ssf-hub/internal/registry/registry.go:350-382 | Whatever a caller does to the copies it was given, the registry stays valid and its table the same |
| `Registry.ReceiverObject.Copy` | ssf-hub/internal/registry/registry.go:350-382 | A copy holds the same record in memory of its own |
| `Registry.MemoryRegistry.Register` | ssf-hub/internal/registry/registry.go:70-96 | Refines the table operation for any object, one the registry already stores included: validation, duplicate check, defaults, creation time; the caller's object is kept, and nothing else that was there joins the registry's memory |
| `Registry.MemoryRegistry.Unregister` | ssf-hub/internal/registry/registry.go:99-109 | Removes the entry or reports that there is none |
| `Registry.MemoryRegistry.Get` | ssf-hub/internal/registry/registry.go:112-123 | Returns a fresh copy of the entry, or not found |
| `Registry.MemoryRegistry.List` | ssf-hub/internal/registry/registry.go:126-136 | Returns a fresh copy of every entry, once each |
| `Registry.MemoryRegistry.Update` | ssf-hub/internal/registry/registry.go:139-168 | Refines the table operation for any object, the stored one included: new settings over the old statistics; nothing else that was there joins the registry's memory |
| `Registry.MemoryRegistry.GetByEventType` | ssf-hub/internal/registry/registry.go:171-193 | Copies of exactly the active receivers that name the type |
| `Registry.MemoryRegistry.FilterReceivers` | ssf-hub/internal/registry/registry.go:314-347 | Copies of exactly the selected receivers, without duplicates |
| `Registry.MemoryRegistry.IncrementEventReceived` | ssf-hub/internal/registry/registry.go:233-247 | One more received event at the receiver, nothing else; not found otherwise |
| `Registry.MemoryRegistry.IncrementEventDelivered` | ssf-hub/internal/registry/registry.go:250-263 | One more delivered event at the receiver, nothing else; not found otherwise |
| `Registry.MemoryRegistry.IncrementEventFailed` | ssf-hub/internal/registry/registry.go:266-280 | One more failed event and the error at the receiver, nothing else; not found otherwise |
| `Registry.MemoryRegistry.Count` | ssf-hub/internal/registry/registry.go:385-389 | The number of entries of the table |
| `Registry.MemoryRegistry.CountByStatus` | ssf-hub/internal/registry/registry.go:392-403 | Counts every status present, and the counts add up to the number of receivers |
| `Registry.ReceiverObject.Validate` | ssf-hub/pkg/models/receiver.go:122-150 | Agrees with the specified check, error by error, and may fill in the HMAC algorithm |
| `Registry.ReceiverObject.SetDefaults` | ssf-hub/pkg/models/receiver.go:180-225 | Fills exactly the empty settings |
| `Registry.ReceiverObject.MatchesFilters` | ssf-hub/internal/registry/registry.go:333-347 | All filters match |
| `ReceiverTable.RegisterKeepsConsistent` | ssf-hub/internal/registry/registry.go:70-96 | Registering adds one entry under the record's own ID, valid and with a status |
| `ReceiverTable.UpdateKeepsStatistics` | ssf-hub/internal/registry/registry.go:139-168 | Updating keeps creation time, the three counters and the last event time, and everyone else's record |
| `ReceiverTable.ErrorAfterUpdate` | ssf-hub/internal/registry/registry.go:156-165 | An accepted update stores the last delivery error of the record passed in, so it keeps the old one if and only if they are the same; through the broker it stores none, so it keeps it if and only if there was none |
| `ReceiverTable.CountingKeepsConsistent` | ssf-hub/internal/registry/registry.go:233-280 | Counting keeps every entry valid and all settings |
| `ReceiverTable.CheckTwice` | ssf-hub/pkg/models/receiver.go:153-177 | Validation accepts what it has filled in |
| `Registration.AcceptedExactlyWhen` | ssf-hub/pkg/models/receiver.go:122-177 | A registration is accepted if and only if the ID is new and the receiver has an ID, an event type, a webhook URL that parses, and the credentials its auth type asks for; an update, if the ID is known instead |
| `Registration.StoredAreComplete` | ssf-hub/pkg/models/receiver.go:122-177 | Every stored receiver has all of these under its own ID, and one that signs has an algorithm |
| `Registration.CompleteAreConsistent` | ssf-hub/pkg/models/receiver.go:122-177 | And a table of such receivers is consistent |
| `Registration.RefusedForTheFirstReason` | ssf-hub/pkg/models/receiver.go:122-177 | A refusal names the first of seven reasons that applies, then a known ID (or for an update an unknown one) |
| `Registration.StoredAsGiven` | ssf-hub/pkg/models/receiver.go:180-225 | Registration stores what it was given, zero settings replaced by the documented numbers |
| `Registration.RequestsStartAtZero` | ssf-hub/pkg/models/receiver.go:228-246 | A request is stored as active, with all counts at zero and no error |
| `Registration.RequestsAreForWebhooks` | ssf-hub/pkg/models/receiver.go:180-246 | A request without a channel asks for a webhook; one for anything else is refused |
| `Registration.UpdatedAsGiven` | ssf-hub/internal/registry/registry.go:139-168 | An update stores the settings as given, without defaults |
| `Registration.DefaultsKeepTheCreationTime` | ssf-hub/pkg/models/receiver.go:213-219 | Defaults set a missing creation time only |
| `Registration.UnregisteringRemovesOne` | ssf-hub/internal/registry/registry.go:99-109 | Unregistering succeeds if and only if the receiver is there, and removes it alone |
| `Registration.CountingWrites` | ssf-hub/internal/registry/registry.go:233-280 | What each of the three ways of counting writes, field by field |
| `Registration.StatusWrites` | ssf-hub/internal/registry/registry.go:283-296 | Setting the status writes the status and the time of the update |
| `ReceiverTable.BrokerUpdateReactivates` | ssf-hub/internal/controller/broker.go:292-346 | An update sent through the broker makes a receiver active, so it keeps its status if and only if that was active |
| `Lifecycle.StoppedConsumersEnd` | ssf-hub/internal/hubreceiver/hubreceiver.go:104-149 | After Stop has returned each consumer begins at most one more pull and takes at most five more steps |
| `Lifecycle.LaterConsumersDoNotPull` | ssf-hub/internal/hubreceiver/hubreceiver.go:77-96 | A consumer started after that never begins a pull |
| `Lifecycle.StoppedForGood` | ssf-hub/internal/hubreceiver/hubreceiver.go:104-118 | All pulls after a Stop, restarts included, are at most one per consumer there was |
| `Lifecycle.PullsAgainExactlyWhen` | ssf-hub/internal/hubreceiver/hubreceiver.go:121-149 | A consumer can begin another pull, in some run, if and only if it is about to, or has not exited and neither the channel is closed nor its context cancelled |
| `Lifecycle.StartsExactlyWhenOpen` | ssf-hub/internal/hubreceiver/hubreceiver.go:77-118 | A consumer started now can come to pull if and only if the hub receiver was never stopped |
| `Lifecycle.StartsExactlyWhenNeverStopped` | ssf-hub/internal/hubreceiver/hubreceiver.go:77-118 | Over whole runs from a new hub receiver: a consumer started now can come to pull if and only if the channel was never closed |
| `Lifecycle.FlagAndChannelTell` | ssf-hub/internal/hubreceiver/hubreceiver.go:77-118 | The flag is up if and only if a start came after the last stop, the channel closed if and only if there was a stop |
| `Lifecycle.WhoLeaves` | ssf-hub/internal/hubreceiver/hubreceiver.go:121-149 | A consumer leaves at its check exactly when the flag is down, at its select or out of its back-off exactly when the hub is stopped or its context cancelled |
| `Lifecycle.NobodyIsStuck` | ssf-hub/internal/hubreceiver/hubreceiver.go:121-149 | A consumer that has not exited can always take a step |
| `Lifecycle.ConsumersKeepGoing` | ssf-hub/internal/hubreceiver/hubreceiver.go:121-149 | Until someone stops the hub or cancels its context a consumer never leaves, whatever errors its pulls end with |
| `SubjectTheorems.RoundTrip` | secevent/pkg/subject/parser.go:66-88 | For trees of any depth, printing then parsing succeeds if and only if every node has a format the parser knows, and gives the tree with its values trimmed |
| `SubjectTheorems.BuiltRoundTrip` | secevent/pkg/subject/simple.go:26-38 | A subject built by the constructors comes back exactly, if and only if no node on any path is an account, DID, JWT ID or SAML assertion |
| `SubjectTheorems.AllKnownMeans` | secevent/pkg/subject/parser.go:75-87 | The recursive condition of the round trip is that of every node on every path |
| `SubjectTheorems.AccountsDoNotComeBack` | secevent/pkg/subject/parser.go:75-87 | A concrete valid account that is printed and not parsed, alone or as a component |
| `SubjectTheorems.ParsedRoundTrip` | secevent/pkg/subject/parser.go:9-88 | Whatever was parsed, from any tree, its printed form parses back to it |
| `SubjectTheorems.ParsedIsSettled` | secevent/pkg/subject/complex.go:222-310 | Parsing leaves known formats and trimmed values throughout |
| `SubjectTheorems.ValidateTrimmed` | secevent/pkg/subject/complex.go:125-180 | White space around values changes neither the verdict nor the error reported |
| `SubjectTheorems.RoundTripKeepsVerdict` | secevent/pkg/subject/complex.go:125-219 | Print-then-parse keeps the verdict of Validate |
| `SubjectTheorems.ValidMeansEveryNode` | secevent/pkg/subject/complex.go:125-180 | A subject is valid if and only if every node on every path passes its own checks |
| `SubjectTheorems.ValidateReportsFirst` | secevent/pkg/subject/simple.go:53-59 | For each of the ten formats what makes a subject invalid, in the order in which it is reported; components come in order, under their names; constructors refuse for the same |
| `SubjectTheorems.ComponentNames` | secevent/pkg/subject/complex.go:183-219 | The seven names of components |
| `SubjectTheorems.MissingMembersAreEmpty` | secevent/pkg/subject/parser.go:9-64 | Members left out of a simple subject are read as empty |
| `SubjectTheorems.MadeIsBuilt` | secevent/pkg/subject/simple.go:90-102 | What a constructor returns it would accept unchanged |
| `Subject.PrintersAgree` | secevent/pkg/subject/complex.go:312-375 | Payload and MarshalJSON print the same tree |
| `TrimSpace.TrimCuts` | secevent/pkg/subject/simple.go:26-38 | Trimming cuts white space off both ends and nothing else |
| `TrimSpace.TrimTwice` | secevent/pkg/subject/simple.go:53-67 | Trimming is idempotent |
| `TrimSpace.TrimOfBlank` | secevent/pkg/subject/simple.go:67-70 | Nothing is left exactly of white space |
| `TrimSpace.SpacesAre` | secevent/pkg/subject/simple.go:27 | The white space of Unicode, by number |
| `ComplexSubject.ComplexSubjectImpl.With` | secevent/pkg/subject/complex.go:33-93 | Sets one component and ignores nil |
| `ComplexSubject.ComplexSubjectImpl.UnmarshalJSON` | secevent/pkg/subject/complex.go:222-310 | Reads the components in place, in order, up to the first failure, and leaves the others as they were |
| `ComplexSubject.OverlayIsParse` | secevent/pkg/subject/complex.go:222-310 | Parsing in place fails exactly when parsing does, and otherwise lays the parsed components over the old ones |
| `ComplexSubject.ReuseIsSafe` | secevent/pkg/subject/complex.go:222-310 | Parsing into a used object gives what parsing gives if and only if it held no component the tree lacks |
| `ComplexSubject.OldUserSurvives` | secevent/pkg/subject/complex.go:222-310 | A concrete old component and tree for which reuse differs from parsing |
| `EventTheorems.EventRoundTrip` | secevent/pkg/event/event.go:69-108 | A printed event parses under its own type if and only if that is its body's type, it is valid and its initiating entity has a name; it comes back up to empty metadata |
| `EventTheorems.ParsedEventIsStable` | secevent/pkg/schemes/caep/credential_change_event.go:157-194 | A parsed event, printed and parsed again, is itself without empty metadata, and then for good |
| `EventTheorems.OwnParser` | secevent/pkg/schemes/caep/assurance_level_change_event.go:126-163 | What the body's own parser makes of a printed event, including the error when there is one |
| `EventTheorems.ForeignParser` | secevent/pkg/event/event.go:69-108 | The parser of another kind rejects it whatever the metadata |
| `EventTheorems.BodyParsed` | secevent/pkg/schemes/caep/token_claims_change_event.go:51-88 | A body printed together with any metadata is read back unchanged, untyped claims of any depth included |
| `EventTheorems.MetadataParsed` | secevent/pkg/schemes/caep/metadata.go:18-68 | Metadata is read back without its empty maps, and is gone when nothing was left of it |
| `EventTheorems.BodyKeys` | secevent/pkg/schemes/caep/metadata.go:63-68 | Payload and metadata member names never meet |
| `EventTheorems.ParsedIsSound` | secevent/pkg/event/event.go:100-107 | Whatever is accepted has the type of its body and is valid |
| `EventTheorems.EventFaults` | secevent/pkg/schemes/caep/assurance_level_change_event.go:87-124 | What makes each of the three events invalid, in the order in which it is reported |
| `EventTheorems.TypeNames` | secevent/pkg/event/event.go:69-108 | The three types by name; an event of any other type is reported as unregistered |
| `EventTheorems.TimestampsAre64Bits` | secevent/pkg/schemes/caep/metadata.go:156-165 | A timestamp is a whole number of 64 bits |
| `EventTheorems.NewCredentialChangeIsLost` | secevent/pkg/schemes/caep/credential_change_event.go:50-61 | The constructor sets another event's type, so what it makes never parses back, whatever is added |
| `Json.DecodeEncoded` | secevent/pkg/schemes/caep/token_claims_change_event.go:9-11 | An untyped value of any depth survives printing and parsing |
| `TokenTheorems.TokenRoundTrip` | secevent/pkg/token/token.go:279-340 | A printed token is accepted if and only if it is valid, its event sound and its subject's formats known, and then comes back with subject trimmed and empty metadata gone |
| `TokenTheorems.ParsedTokenIsStable` | secevent/pkg/token/token.go:297-340 | Whenever a tree is accepted, printing and parsing again succeeds and gives the same token without empty metadata; afterwards nothing changes |
| `TokenTheorems.ParsedIsSound` | secevent/pkg/token/token.go:297-340 | Every accepted token is valid, with a sound event and a settled subject |
| `TokenTheorems.AcceptedExactlyWhenWhole` | secevent/pkg/token/token.go:191-217 | An accepted token has an issuer, a token ID, a valid event and a valid subject; a printed token is accepted if and only if it has them and its parts parse |
| `TokenTheorems.RejectedForTheFirstFault` | secevent/pkg/token/token.go:297-340 | For every tree: the first part that does not parse is reported, then the first of issuer, token ID, subject, validity of the subject that is missing |
| `TokenTheorems.EachFaultHasItsError` | secevent/pkg/token/token.go:191-217 | Taking the issuer, the ID, the event or the subject from a complete token gives its printed form the error for that part |
| `TokenTheorems.UnsoundEventIsReported` | secevent/pkg/token/token.go:319-330 | An event that is invalid or has another type's name, in a complete token, is reported as a bad event |
| `TokenTheorems.InvalidSubjectIsReported` | secevent/pkg/token/token.go:311-340 | An invalid subject is reported as such, one of an unknown format as one that does not parse |
| `TokenTheorems.HeadParsed` | secevent/pkg/token/token.go:279-317 | Claims, audience, dates and subject of a printed token are read back, or the token is rejected for its subject |
| `TokenTheorems.ExactlyOneEvent` | secevent/pkg/token/token.go:319-321 | The number of events is wrong if and only if it is not one |
| `TokenTheorems.NewCredentialTokenIsLost` | secevent/pkg/schemes/caep/credential_change_event.go:58 | No token around a newly made credential change event is accepted back |
| `TokenTheorems.MultiRoundTrip` | secevent/pkg/token/token.go:128-166 | The round trip for tokens with any number of events, filed under their keys |
| `TokenTheorems.MultiAcceptedExactlyWhenWhole` | secevent/pkg/token/token.go:38-66 | The same acceptance condition for several events, of which there must be one |
| `TokenTheorems.MultiRejectedForTheFirstFault` | secevent/pkg/token/token.go:128-166 | And the same order of errors |
| `TokenObject.SecEventObject.UnmarshalJSON` | secevent/pkg/token/token.go:297-340 | Parses in place: claims first, then subject, then event, then validation, which takes nothing back |
| `TokenObject.NewObjectIsParse` | secevent/pkg/token/token.go:297-340 | Into a zero object, parsing in place is parsing: same trees, same result, same errors |
| `TokenObject.AcceptedInPlaceIsValid` | secevent/pkg/token/token.go:297-340 | Without an error a used object holds an issuer, a token ID, a valid event and a valid subject; the tree would be accepted by itself if and only if it has issuer, ID and subject of its own, which the old contents can otherwise stand in for |
| `TokenObject.ReuseIsSafe` | secevent/pkg/token/token.go:297-309 | Parsing an acceptable tree into a used object gives its token if and only if the object held no claim the tree leaves alone |
| `TokenObject.OldTransactionSurvives` | secevent/pkg/token/token.go:297-309 | A concrete accepted tree and used object for which they differ: the old transaction ID stays |
| `Backoff.IntervalIsCeiling` | ssf-hub/internal/distributor/distributor.go:245-249 | For a whole multiplier of at least 1 and an initial interval within the maximum, the iterated, truncated, capped backoff is min(initial*m^k, max) |
| `Backoff.IntervalBelowCeiling` | ssf-hub/internal/distributor/distributor.go:245-249 | For a real multiplier it lies between the initial interval and that closed form |
| `Backoff.IntervalsNeverDecrease` | ssf-hub/internal/distributor/distributor.go:245-249 | For every policy, zero and negative intervals included, the waits never decrease if and only if a condition on the three numbers holds; for a positive initial interval it is a multiplier of at least 1 and an interval within the maximum |
| `Backoff.NoOverflow` | ssf-hub/internal/distributor/distributor.go:246 | No product overflows 64 bits when max*m does not |
| `Backoff.CeilingGrows` | ssfreceiver/internal/retry/backoff.go:26-38 | The receiver library's backoff before jitter grows up to its cap |
| `Backoff.CeilingIsCapped` | ssfreceiver/internal/retry/backoff.go:31-38 | Capping once at the end is capping every step |
| `Backoff.DelayBounds` | ssfreceiver/internal/retry/backoff.go:40-41 | A jittered delay lies between 80% and 100% of the backoff, up to truncation |
| `Backoff.JitterKeepsOrder` | ssfreceiver/internal/retry/backoff.go:26-42 | Below the cap the next delay is never shorter, whatever the draws, if and only if the multiplier is at least 1.25 |
| `Backoff.DelaysKeepOrder` | ssfreceiver/internal/retry/backoff.go:26-42 | The durations returned, after truncation: the next is never shorter, whatever the draws, if and only if the longest of this attempt is within the shortest of the next; below the cap a multiplier of 1.25 is enough |
| `Retry.ExponentialBackoff.Next` | ssfreceiver/internal/retry/backoff.go:26-42 | Returns the delay for its count of calls and counts this one |
| `Retry.Do` | ssfreceiver/internal/retry/retry.go:17-83 | The loop ends as its specification says and returns the response of its last attempt, open; of all bodies obtained, those left open apart from the returned one are exactly the leaked ones, an error that comes with a response included; the waits begun are counted exactly |
| `Retry.Call` | ssfreceiver/internal/retry/retry.go:50-74 | Before and after each call of the operation at most one body of an accepted response is open; an older one is closed when a new one comes; one that came with an error is dropped as it is |
| `Retry.AttemptsAreBounded` | ssfreceiver/internal/retry/retry.go:23-82 | At most MaxRetries+1 calls, and exhaustion means exactly that many, all of which errored or had a retryable status |
| `Retry.ReturnsExactlyWhen` | ssfreceiver/internal/retry/retry.go:50-74 | The response returned is that of the first attempt whose status is not in the map, maps to false, or meets a nil map, everything before it having failed or got a status that maps to true |
| `Retry.OtherwiseEndsExactlyWhen` | ssfreceiver/internal/retry/retry.go:23-82 | When exactly the loop ends without a response, by cancellation, or with all attempts used up |
| `Retry.ErrorsTell` | ssfreceiver/internal/retry/retry.go:25-82 | No error exactly with an answer of the operation; cancellation counts the attempts, exhaustion one less |
| `Retry.WaitsAreBegunExactlyWhen` | ssfreceiver/internal/retry/retry.go:32-47 | Which waits are begun |
| `Retry.DefaultRetries` | ssfreceiver/internal/config/config.go:27-46 | The default configuration is valid and retries six statuses and no other |
| `Retry.DefaultRetryPace` | ssfreceiver/internal/config/config.go:27-35 | With it there are at most four calls, the backoff before jitter being one, two and four seconds |
| `Retry.ValidateReportsFirst` | ssfreceiver/internal/config/config.go:48-74 | What makes a configuration invalid, in the order in which it is reported |
| `Retry.CallsAreReached` | ssfreceiver/internal/retry/retry.go:23-47 | An attempt is made if and only if it is within the retries, the context is not found cancelled up to it, and every attempt before it errored or had a retryable status |
| `Retry.LeaksExactly` | ssfreceiver/internal/retry/retry.go:25-66 | For every operation: a body is left open with nobody to close it if and only if it is the one held when cancellation is found, or came open together with an error |
| `Retry.LeaksOnCancellationOnly` | ssfreceiver/internal/retry/retry.go:25-46 | When no error brings an open body, something leaks if and only if cancellation is found after some attempt obtained a response, and then one body only |
| `Retry.LeakingInputs` | ssfreceiver/internal/retry/retry.go:25-66 | Two concrete inputs that leak, one by cancellation and one by errors with responses |
| `Retry.TotalWaitIsBounded` | ssfreceiver/internal/retry/retry.go:32-47 | Under a validated configuration all waits together are at most MaxRetries*MaxBackoff |
| `IdGenerator.IdsDistinct` | secevent/pkg/id/generator.go:45-49 | The IDs of a run of calls are pairwise distinct if and only if the run is no longer than 2^64, for every prefix and pad length |
| `IdGenerator.PaddedReads` | secevent/pkg/id/generator.go:48 | Padded decimal printing is undone by reading, for every width, negative and excessive ones included |
| `IdGenerator.PaddedWidth` | secevent/pkg/id/generator.go:48 | A padded number is as wide as asked or as its digits, with zeros in front or blanks behind |
| `IdGenerator.BadWidths` | secevent/pkg/id/generator.go:48 | A width beyond a million is reported in the text |
| `IdGenerator.DigitsAreFew` | secevent/pkg/id/generator.go:48 | A number is printed in as few decimal digits as it takes |
| `IdGenerator.SequentialGenerator.Generate` | secevent/pkg/id/generator.go:45-49 | Bumps the wrapping counter and prints it padded after the prefix |
| `IdGenerator.SliceInBounds` | secevent/pkg/id/generator.go:107-130 | Generation succeeds if and only if the length is not negative, even for hex, and not 1 modulo 4 for base64 |
| `IdGenerator.QuotientTruncates` | secevent/pkg/id/generator.go:107-113 | Division is toward zero, as the language has it |
| `IdGenerator.Base64IdKeepsItsBytes` | secevent/pkg/id/generator.go:124-132 | A base64 ID has exactly the length asked for, no padding, and holds every byte drawn (sections 4 and 5 of RFC 4648) |
| `IdGenerator.DifferentDrawsDifferentIds` | secevent/pkg/id/generator.go:107-133 | Two draws give the same ID if and only if they are the same bytes, in hex and both forms of base64 |
| `IdGenerator.AlphabetsDiffer` | secevent/pkg/id/generator.go:113-122 | Base64url uses no plus or slash, base64 no minus or underscore, hex lower-case digits only |
| `IdGenerator.KnownEncodings` | secevent/pkg/id/generator.go:113-122 | Test vectors of section 10 of RFC 4648 |
| `Validation.EventTypesMatch` | ssfreceiver/internal/validation/validation.go:30-47 | True if and only if the lengths agree and every type of b is in a; without duplicates in b, if and only if a is a permutation of b |
| `Validation.MatchIsPermutation` | ssfreceiver/internal/validation/validation.go:30-47 | Without duplicates in b, a match is a permutation: the pigeonhole behind it |
| `Validation.DecidesPermutationExactlyWhen` | ssfreceiver/internal/validation/validation.go:30-47 | For a given b the comparison decides "a is a permutation of b" for every a if and only if b has no duplicates |
| `Validation.MatchIsSymmetric` | ssfreceiver/internal/validation/validation.go:30-47 | For any two lists the order of the arguments matters if and only if they are of one length and one has all the types of the other and more |
| `Validation.DuplicatesBreakSymmetry` | ssfreceiver/internal/validation/validation.go:30-47 | A concrete pair of lists, one with a duplicate, that match one way only |

## Left out

- Cluster: each hub has a registry and a distributor of its own, as separate broker processes have; hubs sharing one registry object are not modelled.
- Cluster: several hub IDs on one topic never arise from `broker.New` with the mock client, whose topics are private and whose broker passes its own ID on to its receiver; the cluster combines the mock's subscription with hubs of different IDs, which is how brokers share one topic in a deployment.
- Cluster: a subscription lives as long as its hub and has one consumer at a time; deleting it, which Stop does, and consuming the topic from its beginning again under a new one are not part of a run, nor are two consumers pulling at once.
- Cluster: a publisher's message ID is taken to be new (`Subscription.dfy` has runs in which IDs repeat), and each metrics update to be atomic, although the distributor's and the hub receiver's counters are plain increments; registry counters really are updated under a lock.
- Cluster: `UpdateStats` of the registry is not a step, and receivers enter with zero counters, as the broker registers them.
- Cluster: wall-clock readings are arbitrary parameters of the steps that read the clock, so they need not even grow.
- HubTheorems.DeliveryOutcome: webhook calls are outcomes supplied from outside; requests, headers, authentication and timeouts are not modelled, nor is the length of a wait inside the cluster.
- Lifecycle: a second call of Stop, which panics on the closed channel, is excluded by precondition.
- PubSub.MockClient.PullInternalMessages: one pull taken alone, with the outcome of each handler call given beforehand; publishers in between are in `Subscription.dfy` and `Cluster.dfy`.
- PubSub: `ClearAllMessages` during a pull, mock statistics, and the Google Pub/Sub client are left out.
- Registry: `GetActiveReceivers`, `GetReceiverStats` and `UpdateStats` are left out; `SetReceiverStatus` is modelled on tables only (`ReceiverTable.SetStatus`), not on the heap.
- Registry: filter operands are values compared by equality; operands that Go cannot compare would panic and are not modelled.
- Broker: parsing and conversion of an incoming token into an event, statistics and the HTTP controller are left out, and so are the calls that only pass on to the registry. A receiver's own retry settings are stored and never read by the distributor, so they play no part in deliveries.
- Subject: components are values, so one subject object shared by two others, or nested within itself, is not modelled. Whether an address or URL parses is a parameter.
- Events: device compliance, session revocation, stream update and verification events have the same shape and are left out, so their types count as unregistered here. Setters of events and metadata, each of which assigns one field, are left out, and so are parsers registered later by a program. Which of several decoding errors is reported first is not modelled.
- Json: the text of a document is not modelled: escapes, repeated names, the case-insensitive matching of struct fields, invalid UTF-8. Numbers are exact, so the loss of digits in 64-bit floats is not seen.
- TokenObject: the setters of a token, each of which assigns one field, are left out.
- TokenObject.SecEventObject.UnmarshalJSON: says nothing of what a decoding error leaves in the object, because the decoder then stops in the order of the document's members, which a tree does not have.
- Token: signing, verification and the HTTP layer are left out; the registered claims follow section 4.1 of RFC 7519 as the JWT library reads and prints them, with dates in whole seconds. What number a quoted date stands for is a parameter.
- Backoff: multipliers and jitter are reals, so rounding of floats is not seen.
- Retry.Do: every response is a new object with a body of its own; an operation that hands out one response twice, whose body the loop would then close and return, is not modelled. The outcomes of the operation and of each look at the context are parameters.
- IdGenerator: UUID and timestamp generators, and the fallback to a UUID when no random bytes can be read, are left out.
- Validation: the checks of stream configurations and URLs are left out, since they only compare fields.
- The archived client and server, the example scripts, configuration loading, logging and metrics text are not part of this model.
