# Verification of the Fedify sidecar's algorithms and state machines

A Dafny model of the parts of the Fedify sidecar and its ActivityPods integration that hold real algorithms or
state, with proofs of what those parts promise.

- **Durable work queue** (`WorkQueue.dfy`, `QueueDeployment.dfy`): Redis streams, a delayed set, a consumer group and
  claiming, as a transition system of any number of workers and movers. Each Redis command or transaction is one
  step, a crash may fall between any two, and trimming removes any legal number of oldest entries. `QueueDeployment`
  holds the source's methods, up to the loop of `listen`, over structures changed in place; whatever state they reach is
  a state of a run, so the theorems about runs hold of it.
- **Followers walk and delivery targets** (`FollowersWalk.dfy`, `DeliveryTargets.dfy`): sections 7.1 and 7.1.3 of
  ActivityPub. The walk is proved against reachability through the pages' own links; resolving, deduplicating and
  grouping are proved to preserve delivery endpoints.
- **Domain batching** (`DomainBatching.dfy`): regrouping recipients across tasks by domain is an exact partition,
  with delivery failures as an arbitrary predicate.
- **Controlled target, its strict client and the evidence summary** (`TargetLedger.dfy`, `SnapshotParser.dfy`,
  `EvidenceSummary.dfy`): a bounded ring that refines an unbounded log, a parser that accepts exactly what the target
  can say, and a summariser whose request counts agree with the target.
- **Key and signature codecs, HTTP signing** (`Positional.dfy`, `Base58.dfy`, `DerSignature.dfy`, `HttpSigning.dfy`):
  base58 (draft-msporny-base58), ECDSA-Sig-Value (section 2.2.3 of RFC 3279) to compact low-s form, and Cavage
  signatures (section 2.3 of draft-cavage-http-signatures-12) in batches grouped by actor.
- **Smaller state and order theorems** (`SlotLimiter.dfy`, `BulkIndex.dfy`, `Percentiles.dfy`, `ParetoFrontier.dfy`).

`Prelude.dfy`, `Ordering.dfy` and `JsonTree.dfy` hold the shared vocabulary: options and results, sorting with a
caller's comparison, JSON trees and string helpers.

Conventions. An operation the source writes as loops or field updates is a method, proved equal to a function of its
inputs or of the old state; the theorems are lemmas about that function. What the code asks of the outside (URL
parsing, fetching, hashing, signing, clocks, local services, `localeCompare`) is a parameter of the model, so each
theorem holds for every behaviour of it. Exceptions are `Err` values or explicit outcomes. Histories, such as the set
of enqueued messages, are ghost fields beside the state.

Where the code differs from what it says or from what one would expect, the model follows the code, and a lemma gives
the exact condition:

- `derToCompact` says DER may prefix a sign byte, but a 33-byte integer makes its copy offset negative and throws:
  `DerSignature.CompactOfSignature` and `SignByteThrows`.
- The public audience is filtered by spelling before normalisation, so another spelling becomes a recipient:
  `DeliveryTargets.PublicRecipientIff` and `PublicSlipsIn`.
- A message whose value is null is counted nowhere, as it is taken apart outside the try:
  `BulkIndex.EveryMessageIsAccountedFor`.
- A throw while serialising the bulk buffer counts a document as failed and also leaves it to be indexed:
  `BulkIndex.EveryMessageIsAccountedFor` and `ThrowCountsTwice`.
- A mover's commit does not look at what its ZREM removed, so a message another mover already moved is copied again:
  `WorkQueue.OneCopyIff`, `TwoHoldersDuplicate` and `OverlappingMoversDuplicate`.
- Trimming past the unacknowledged span loses messages: `WorkQueue.TrimReaches`, `MoverTrimReaches` and `OverrunLoses`.
- Under the profile that signs content-type, the value signed is not returned to the caller:
  `HttpSigning.ReceiverRebuildsTheText`.

## Model

| member | source | states |
|---|---|---|
| `WorkQueue.RunKeepsInv` | fedify-sidecar/archive/legacy/fedify-redis-message-queue.ts:206-497 | every state reached by any interleaving of workers, movers, ticks and crashes keeps the group bookkeeping (pending entries are delivered and unacknowledged, delivered entries are pending, acknowledged or trimmed) and the whereabouts of every message |
| `WorkQueue.NothingLost` | fedify-sidecar/archive/legacy/fedify-redis-message-queue.ts:206-280 | while the unacknowledged span has stayed within maxStreamLength, each stream entry is undelivered, pending or acknowledged, and each enqueued message is delayed or has such an entry |
| `WorkQueue.TrimReaches` | fedify-sidecar/archive/legacy/fedify-redis-message-queue.ts:225-230 | the span bound is exact for an enqueue: its transaction may trim the entry at a position if and only if the entries it adds put that position outside the bound |
| `WorkQueue.MoverTrimReaches` | fedify-sidecar/archive/legacy/fedify-redis-message-queue.ts:471-491 | the same for a mover's transaction, which trims with every XADD too |
| `WorkQueue.OverrunLoses` | fedify-sidecar/archive/legacy/fedify-redis-message-queue.ts:225-230 | a run outside the bound that loses an unacknowledged message |
| `WorkQueue.AcknowledgedAfterHandler` | fedify-sidecar/archive/legacy/fedify-redis-message-queue.ts:440-460 | an entry acknowledged in any reachable state has no data, or its handler returned at an earlier step of the run |
| `WorkQueue.NeverBeforeDue` | fedify-sidecar/archive/legacy/fedify-redis-message-queue.ts:465-497 | whatever step puts a delayed message on the stream, the clock then is at or past its ready time |
| `WorkQueue.CommitsInOrder` | fedify-sidecar/archive/legacy/fedify-redis-message-queue.ts:465-491 | over every run, the entries one commit adds to the stream stand in the order of their ready times |
| `WorkQueue.HandoversTakeTime` | fedify-sidecar/archive/legacy/fedify-redis-message-queue.ts:388-425 | over every run, an entry becomes pending by being read, is handed to another worker by claiming alone and only when idle long enough since its last handover, and leaves by acknowledgement or, once trimmed away, by claiming |
| `WorkQueue.AtLeastOneCopy` | fedify-sidecar/archive/legacy/fedify-redis-message-queue.ts:465-497 | in every reachable state each enqueued message waits in the sorted set or has a stream copy, movers overlapping or not |
| `WorkQueue.OneCopyIff` | fedify-sidecar/archive/legacy/fedify-redis-message-queue.ts:471-491 | over a run, every message has exactly one stream copy once it stops waiting and none before, in every state, if and only if every commit still finds all it carries in the sorted set, which the code does not check |
| `WorkQueue.ExclusiveReadsCopyOnce` | fedify-sidecar/archive/legacy/fedify-redis-message-queue.ts:465-497 | when no mover reads what another has read and not committed, every delayed message is copied exactly once |
| `WorkQueue.TwoHoldersDuplicate` | fedify-sidecar/archive/legacy/fedify-redis-message-queue.ts:471-491 | from any state in which two movers hold one message, committing one and then the other is possible and leaves at least two copies |
| `WorkQueue.OverlappingMoversDuplicate` | fedify-sidecar/archive/legacy/fedify-redis-message-queue.ts:465-497 | a run of two overlapping movers that puts one delayed message on the stream twice |
| `QueueDeployment.Deployment.Enqueue` | fedify-sidecar/archive/legacy/fedify-redis-message-queue.ts:206-237 | a delayed message is scored by its ready time and stays off the stream; any other becomes the newest entry; the state stays one a run reaches |
| `QueueDeployment.Deployment.EnqueueMany` | fedify-sidecar/archive/legacy/fedify-redis-message-queue.ts:245-280 | the same for all messages in one step, and no step for none |
| `QueueDeployment.Deployment.ReadGroup` | fedify-sidecar/archive/legacy/fedify-redis-message-queue.ts:420-425 | hands the worker the next entries never delivered, at most ten, consecutive, as one step of a run |
| `QueueDeployment.Deployment.AutoClaim` | fedify-sidecar/archive/legacy/fedify-redis-message-queue.ts:388-395 | hands the worker at most ten entries, each idle long enough; unless ten were found, every idle entry scanned is taken |
| `QueueDeployment.Deployment.ProcessMessage` | fedify-sidecar/archive/legacy/fedify-redis-message-queue.ts:440-460 | the entry is acknowledged exactly when the handler does not throw on it; otherwise the rest of the batch stays pending |
| `QueueDeployment.Deployment.ProcessBatch` | fedify-sidecar/archive/legacy/fedify-redis-message-queue.ts:397-402 | handles and acknowledges the entries in order up to the first the handler throws on or the check of the signal that fails, gives the rest up, and leaves everything else as it was; the entries handled, the throw and the checks left are determined by the handler and the checks there were |
| `QueueDeployment.OneOutcome` | fedify-sidecar/archive/legacy/fedify-redis-message-queue.ts:397-402 | for a handler, a batch and a number of checks there is one way the loop can go |
| `QueueDeployment.Deployment.ProcessNewMessages` | fedify-sidecar/archive/legacy/fedify-redis-message-queue.ts:414-434 | reads the next entries unless the signal has aborted, works through them as a batch, and changes nothing but their place in the pending list, what is acknowledged and what is delivered |
| `QueueDeployment.Deployment.ProcessClaimedMessages` | fedify-sidecar/archive/legacy/fedify-redis-message-queue.ts:381-409 | claims idle entries, all of those scanned unless ten were found, works through them as a batch, and leaves those not acknowledged pending under this worker |
| `QueueDeployment.Deployment.RangeByScore` | fedify-sidecar/archive/legacy/fedify-redis-message-queue.ts:468-469 | the lowest-scored messages ready at the clock reading, in ascending order, at most a hundred, all of them if they fit |
| `QueueDeployment.Deployment.MoveDelayedToStream` | fedify-sidecar/archive/legacy/fedify-redis-message-queue.ts:465-497 | undisturbed, the messages read leave the sorted set and become the newest entries, each once, in ascending order of score |
| `QueueDeployment.Deployment.ListenOnce` | fedify-sidecar/archive/legacy/fedify-redis-message-queue.ts:336-346 | one round: claim and process, read and process unless the first threw, move ready messages unless either threw; the state afterwards is given exactly but for Redis' choices of entries to claim and trim, and it is a stretch of a run |
| `QueueDeployment.Deployment.Listen` | fedify-sidecar/archive/legacy/fedify-redis-message-queue.ts:334-358 | rounds until the signal has passed its checks, with a wait after a throw, as one run |
| `QueueDeployment.ListenDrains` | fedify-sidecar/archive/legacy/fedify-redis-message-queue.ts:334-434 | listening with a handler that never throws, and checks enough, settles everything in the stream, acknowledged or trimmed, but what was pending and not yet idle or beyond the scan, however many rounds the claims of ten take |
| `QueueDeployment.CrashIsRecovered` | fedify-sidecar/archive/legacy/fedify-redis-message-queue.ts:378-409 | what a worker held when it crashed in any reachable state is settled by any worker that listens after the idle time, under the same conditions |
| `QueueDeployment.Deployment.CrashAndRecover` | fedify-sidecar/archive/legacy/fedify-redis-message-queue.ts:378-409 | a worker crashes, the idle time passes and a free worker listens: with a handler that never throws and more checks of the signal than 23 for every ten entries in the stream or pending and 23 besides, everything the crashed worker held that the scan reaches is acknowledged or trimmed away |
| `QueueDeployment.DeploymentIsSafe` | fedify-sidecar/archive/legacy/fedify-redis-message-queue.ts:116-497 | however these operations by any number of workers brought the deployment where it is, acknowledged entries were handled or empty, every message waits or is on the stream, and none is lost within the span bound |
| `FollowersWalk.FetchFollowersActorUris` | fedify-sidecar/activitypods-integration/activitypub-recipient-resolution.js:125-207 | the loop terminates by pages left and queue length, returns exactly the followers of the reference walk, and requests exactly the URLs that walk sees |
| `FollowersWalk.CollectItems` | fedify-sidecar/activitypods-integration/activitypub-recipient-resolution.js:184-193 | adds one page's items until the actor cap, as the reference does |
| `FollowersWalk.NormalizeUrlIs` | fedify-sidecar/activitypods-integration/activitypub-recipient-resolution.js:11-40 | a value normalises to a URL if and only if it is a string that is not blank, parses when trimmed, and is https, or http on the local host |
| `FollowersWalk.ItemsAreListed` | fedify-sidecar/activitypods-integration/activitypub-recipient-resolution.js:340-356 | the items taken from a page are its non-empty orderedItems, or items if orderedItems is no array, or those of the nearest page embedded as first that has any, and none otherwise |
| `FollowersWalk.CandidateIs` | fedify-sidecar/activitypods-integration/activitypub-recipient-resolution.js:183-189 | an item stands for a follower if and only if the string, id or @id that names it normalises to a URL that is neither public nor the actor |
| `FollowersWalk.LinksAre` | fedify-sidecar/activitypods-integration/activitypub-recipient-resolution.js:358-372 | a page links to exactly the URLs its next and first strings normalise to |
| `FollowersWalk.FollowersCollectionsAre` | fedify-sidecar/activitypods-integration/activitypub-recipient-resolution.js:110-123 | the collections are the one the actor document names, first, and the one its URI suggests, each once |
| `FollowersWalk.WalkIsBounded` | fedify-sidecar/activitypods-integration/activitypub-recipient-resolution.js:139-204 | whatever the pages contain, cycles included: no URL is requested twice, at most maxPages are, and at most maxFollowerActors distinct URIs come back |
| `FollowersWalk.NearestPagesFirst` | fedify-sidecar/activitypods-integration/activitypub-recipient-resolution.js:139-204 | breadth first, whichever cap stops the walk: no page left unrequested is fewer links from the roots than a page requested |
| `FollowersWalk.WalkIsExact` | fedify-sidecar/activitypods-integration/activitypub-recipient-resolution.js:125-207 | every result is a follower: a URL, neither public nor the actor, that names an item listed by a page reachable through next and first strings; with nothing unread and the actor cap not hit, every follower is a result |
| `FollowersWalk.PagesFit` | fedify-sidecar/activitypods-integration/activitypub-recipient-resolution.js:139-142 | when the reachable pages fit maxPages the walk leaves nothing unread unless the actor cap stops it |
| `FollowersWalk.CompleteIffFollowersFit` | fedify-sidecar/activitypods-integration/activitypub-recipient-resolution.js:125-207 | with at most maxPages reachable pages the result is complete if and only if the followers fit the actor cap, and otherwise fills the cap |
| `DeliveryTargets.ExtractRecipientUris` | fedify-sidecar/activitypods-integration/activitypub-recipient-resolution.js:46-81 | the loops over to, cc, bto, bcc and the mentions compute the reference recipient list |
| `DeliveryTargets.ExtractMentionUris` | fedify-sidecar/activitypods-integration/activitypub-recipient-resolution.js:83-108 | the loops over both containers' tags compute the reference mention list |
| `DeliveryTargets.RecipientsAre` | fedify-sidecar/activitypods-integration/activitypub-recipient-resolution.js:46-108 | the recipients, each once, are what strings in to, cc, bto and bcc stand for, and what the href of a tag of type Mention stands for apart from followers collections |
| `DeliveryTargets.PublicRecipientIff` | fedify-sidecar/activitypods-integration/activitypub-recipient-resolution.js:57-72 | the public audience is a recipient if and only if some addressed string, neither spelled public nor naming a followers collection, normalises to it |
| `DeliveryTargets.PublicSlipsIn` | fedify-sidecar/activitypods-integration/activitypub-recipient-resolution.js:57-72 | a spelling with an upper-case scheme makes the public audience a recipient |
| `DeliveryTargets.ResolveDeliveryTargets` | fedify-sidecar/activitypods-integration/activitypub-recipient-resolution.js:209-278 | expanding, resolving and deduplicating in loops computes the reference target list |
| `DeliveryTargets.ResolvesTo` | fedify-sidecar/activitypods-integration/activitypub-recipient-resolution.js:240-275 | a recipient has a target if and only if it is known not to be local, its document is found with a valid inbox, and the delivery URL has a host; the target holds that inbox, the shared inbox exactly when it is valid, and the lower-cased host of the delivery URL |
| `DeliveryTargets.ActorRecipientsAre` | fedify-sidecar/activitypods-integration/activitypub-recipient-resolution.js:218-238 | delivery goes to the addressed actors, and to the walked followers exactly when a followers collection is addressed |
| `DeliveryTargets.DeduplicateTargets` | fedify-sidecar/activitypods-integration/activitypub-recipient-resolution.js:319-338 | the loop keeps the first target of each domain and delivery URL, sorted by that key |
| `DeliveryTargets.DedupedAre` | fedify-sidecar/activitypods-integration/activitypub-recipient-resolution.js:319-338 | of the targets with one domain and delivery URL the first is kept, once, in the order of the texts domain|URL |
| `DeliveryTargets.GroupTargetsByDomain` | fedify-sidecar/activitypods-integration/activitypub-recipient-resolution.js:280-317 | the loop computes the reference groups |
| `DeliveryTargets.GroupsAre` | fedify-sidecar/activitypods-integration/activitypub-recipient-resolution.js:280-317 | the groups hold exactly the targets' (domain, delivery URL) pairs, one group per domain in domain order, recipients distinct and sorted; each bears the sending actor and the first shared inbox that one of its targets offers, if any does |
| `DeliveryTargets.OrderDoesNotMatter` | fedify-sidecar/activitypods-integration/activitypub-recipient-resolution.js:280-317 | domains and recipients depend only on the set of pairs, not on the order of the targets |
| `DeliveryTargets.EndpointsArePreserved` | fedify-sidecar/activitypods-integration/activitypub-recipient-resolution.js:240-338 | after resolving, deduplicating and grouping, the pairs are exactly those of the remote recipients that resolve |
| `DeliveryTargets.AttemptedAre` | fedify-sidecar/activitypods-integration/activitypub-recipient-resolution.js:46-238 | delivery is attempted for nobody unintended, and for everyone intended when the followers fit ten pages and five thousand actors |
| `DeliveryTargets.ActivityReachesItsRecipients` | fedify-sidecar/activitypods-integration/activitypub-recipient-resolution.js:46-338 | from an activity to its groups: every (domain, delivery URL) pair belongs to an intended recipient, and when the followers fit the limits the pairs are exactly those of the intended recipients that are remote and resolve |
| `DomainBatching.GroupByDomain` | fedify-sidecar/archive/legacy/domain-batched-worker.ts:250-280 | the map holds, per parsable domain in order of appearance, that domain's recipients and first shared inbox |
| `DomainBatching.Consolidate` | fedify-sidecar/archive/legacy/domain-batched-worker.ts:174-203 | the first phase gathers, per domain, the tasks that reach it, the concatenation of their filters, and the first shared inbox offered |
| `DomainBatching.DomainsAreReached` | fedify-sidecar/archive/legacy/domain-batched-worker.ts:179-203 | the domains worked on are exactly the parsable ones that some recipient has, each once |
| `DomainBatching.ProcessDeliveryTasks` | fedify-sidecar/archive/legacy/domain-batched-worker.ts:170-233 | the two phases make exactly the calls of the reference, failures included |
| `DomainBatching.CallsPartition` | fedify-sidecar/archive/legacy/domain-batched-worker.ts:209-233 | a task's recipients of a domain travel in exactly one call, to that domain, complete and in the order listed, if and only if the domain parses and no earlier delivery to it failed; no call carries anything else |
| `DomainBatching.FilterKeeps` | fedify-sidecar/archive/legacy/domain-batched-worker.ts:214-217 | re-filtering a task keeps each recipient of the domain as often as it was listed, and nobody else |
| `DomainBatching.CallsShareTheInbox` | fedify-sidecar/archive/legacy/domain-batched-worker.ts:198-227 | every call to a domain uses the first shared inbox offered by any of the domain's recipients, whichever task lists it |
| `DomainBatching.FirstSharedIs` | fedify-sidecar/archive/legacy/domain-batched-worker.ts:273-276 | a shared inbox is found if and only if a recipient offers a non-empty one, and is one that is offered |
| `DomainBatching.RequestAccounting` | fedify-sidecar/archive/legacy/domain-batched-worker.ts:209-305 | whatever fails, requests attempted, the optimized count, what failed shared-inbox calls would have added to it, and the recipients cut off by an earlier failure add up to the routable (task, recipient) pairs |
| `DomainBatching.RequestsWithoutFailure` | fedify-sidecar/archive/legacy/domain-batched-worker.ts:285-305 | with no failure, requests sent plus the optimized count equal the routable (task, recipient) pairs |
| `TargetLedger.ControlledActivityPubTargetState.constructor` | fedify-sidecar/src/adsp/ControlledActivityPubTarget.ts:141-157 | starts with an empty ledger |
| `TargetLedger.ControlledActivityPubTargetState.Reset` | fedify-sidecar/src/adsp/ControlledActivityPubTarget.ts:159-167 | empties every field of the ledger |
| `TargetLedger.ControlledActivityPubTargetState.Handle` | fedify-sidecar/src/adsp/ControlledActivityPubTarget.ts:181-283 | changes the ledger as the step function says; records a POST as it was sent and answers 405, 400, 415, 410, 503 or 202 exactly on the conditions on the request |
| `TargetLedger.ConfigureIff` | fedify-sidecar/src/adsp/ControlledActivityPubTarget.ts:141-157 | a target is configured if and only if both numbers are safe integers, the failures not negative and the ring not empty |
| `JsonTree.SafeIntegersAre` | fedify-sidecar/src/adsp/ControlledActivityPubTarget.ts:116-126 | a safe integer is one below 2^53 in size |
| `JsonTree.TrimIs` | fedify-sidecar/src/adsp/ControlledActivityPubTarget.ts:65-77 | trimming takes white space off both ends and leaves none there |
| `JsonTree.LowerIs` | fedify-sidecar/src/adsp/ControlledActivityPubTarget.ts:73-77 | lower-casing changes the letters alone, each to its counterpart |
| `JsonTree.UpperIs` | fedify-sidecar/src/adsp/ControlledActivityPubTarget.ts:181-182 | upper-casing likewise |
| `TargetLedger.ArrivalIs` | fedify-sidecar/src/adsp/ControlledActivityPubTarget.ts:57-114 | what is seen of a POST is what the request says: each field, the headers that are not blank, the digest, the activity id and the media type |
| `TargetLedger.AnswersAre` | fedify-sidecar/src/adsp/ControlledActivityPubTarget.ts:181-282 | after any run: 405 unless POSTed, 400 without the three headers or a matching digest, 415 for another media type, then by scenario and by how often the body came since reset |
| `TargetLedger.WellFormedIff` | fedify-sidecar/src/adsp/ControlledActivityPubTarget.ts:181-252 | what the retry results call a well-formed send is a signed POST of an activity with a matching digest |
| `TargetLedger.LedgerRefinesLog` | fedify-sidecar/src/adsp/ControlledActivityPubTarget.ts:159-222 | over every sequence of requests and resets the ring is the last min(total, max) entries of the unbounded log since reset, and every counter counts that log |
| `TargetLedger.LedgerReconciles` | fedify-sidecar/src/adsp/ControlledActivityPubTarget.ts:194-222 | counts sum to the total, retained plus dropped is the total, and retained sequence numbers are contiguous up to it |
| `TargetLedger.StatusesAre` | fedify-sidecar/src/adsp/ControlledActivityPubTarget.ts:194-282 | the k-th answer to a body depends only on how often it was posted since reset, whatever else is interleaved |
| `TargetLedger.RetryComposition` | fedify-sidecar/src/adsp/ControlledActivityPubTarget.ts:254-282 | a client resending a fresh body has just received its first answer other than 503 exactly when it has sent failures + 1 requests (transient) or one (success, permanent) |
| `SnapshotParser.ObservationRoundTrip` | fedify-sidecar/src/adsp/ControlledTargetSnapshotClient.ts:65-119 | a serialised observation is read back unchanged if its numbers are safe and its activity id exact, and refused otherwise |
| `SnapshotParser.SnapshotRoundTrip` | fedify-sidecar/src/adsp/ControlledTargetSnapshotClient.ts:121-168 | a serialised snapshot is read back unchanged if and only if it is in range and reconciles, and refused otherwise |
| `SnapshotParser.AcceptedSnapshotsReconcile` | fedify-sidecar/src/adsp/ControlledTargetSnapshotClient.ts:121-168 | whatever JSON is accepted yields a snapshot that is in range and reconciles, and that is accepted again when serialised |
| `SnapshotParser.EverySnapshotIsAccepted` | fedify-sidecar/src/adsp/ControlledActivityPubTarget.ts:169-179 | after any run the target's snapshot is accepted unchanged by the client if and only if the request count and the retained sizes and clock readings are safe integers |
| `EvidenceSummary.ValidateIff` | fedify-sidecar/src/adsp/P2W3EvidenceSummary.ts:123-225 | evidence is accepted as a case if and only if the case is well formed and its coordinate, origin, correlation and settlement report just that, the settlement with ok true and no errors; it is refused otherwise |
| `EvidenceSummary.CheckIdentities` | fedify-sidecar/src/adsp/P2W3EvidenceSummary.ts:233-252 | the loop over five identity sets reports the first clash, in the source's order of checks |
| `EvidenceSummary.CheckArms` | fedify-sidecar/src/adsp/P2W3EvidenceSummary.ts:254-270 | the loop over replica arms reports the first arm error |
| `EvidenceSummary.SummarizeAdspP2W3Evidence` | fedify-sidecar/src/adsp/P2W3EvidenceSummary.ts:227-277 | the loops compute the reference summary or its first error |
| `EvidenceSummary.NoClashIff` | fedify-sidecar/src/adsp/P2W3EvidenceSummary.ts:240-252 | no clash is found if and only if coordinates, activities, requests, intents and jobs are pairwise distinct |
| `EvidenceSummary.GridIsFull` | fedify-sidecar/src/adsp/P2W3EvidenceSummary.ts:233-252 | nine cases with distinct coordinates fill the 1/2/4 by success/transient/permanent grid |
| `EvidenceSummary.SummaryIsComplete` | fedify-sidecar/src/adsp/P2W3EvidenceSummary.ts:227-277 | a summary is made if and only if there are nine valid cases with distinct identities that share a namespace exactly within an arm; it lists exactly them, in grid order |
| `EvidenceSummary.InputOrderDoesNotMatter` | fedify-sidecar/src/adsp/P2W3EvidenceSummary.ts:272-277 | permuting the inputs changes neither acceptance nor the summary |
| `EvidenceSummary.NothingIsEverMissing` | fedify-sidecar/src/adsp/P2W3EvidenceSummary.ts:261-269 | by pigeonhole the missing-coordinate check never fires, nor the missing-namespace check |
| `EvidenceSummary.CountAgreesWithTarget` | fedify-sidecar/src/adsp/P2W3EvidenceSummary.ts:117-121 | the request count demanded of a case is the number of requests after which a client of the controlled target first sees an answer other than 503 |
| `Positional.ConvertRoundTrip` | fedify-sidecar/activitypods-integration/signing.service.js:125-137 | rewriting digits in another base, keeping leading zeros, and back is the identity for every digit string |
| `Base58.ToBase58` | fedify-sidecar/activitypods-integration/signing.service.js:125-137 | the division loop and the leading-zero loop compute the base58 text of the number and its leading zeros |
| `Base58.RoundTrip` | fedify-sidecar/activitypods-integration/signing.service.js:125-137 | decoding gives back every byte string, empty, all-zero and zero-led ones included |
| `Base58.DecodedReencodes` | fedify-sidecar/activitypods-integration/signing.service.js:125-137 | every text over the alphabet is the encoding of what it decodes to |
| `Base58.EncodeIsInjective` | fedify-sidecar/activitypods-integration/signing.service.js:125-137 | different byte strings have different texts |
| `Base58.MultibaseRoundTrip` | fedify-sidecar/activitypods-integration/signing.service.js:144-146 | a text reads as a key if and only if it is that key's multibase form |
| `DerSignature.DerToCompact` | fedify-sidecar/activitypods-integration/signing.service.js:95-120 | the running-offset reader computes the reference conversion, error cases included |
| `DerSignature.CompactOfSignature` | fedify-sidecar/activitypods-integration/signing.service.js:95-120 | for every well-formed signature the conversion succeeds if and only if r and s are below 2^255; then it is 64 bytes carrying the same r and whichever of s and n - s is at most n/2 |
| `DerSignature.SignByteThrows` | fedify-sidecar/activitypods-integration/signing.service.js:106-109 | a well-formed signature on which the conversion throws: r = 2^255 |
| `DerSignature.NormalisationIsIdempotent` | fedify-sidecar/activitypods-integration/signing.service.js:111-117 | s and n - s have one low form, and one compact form whenever both convert; normalising again changes nothing |
| `HttpSigning.BuildSigningString` | fedify-sidecar/activitypods-integration/signing.service.js:52-67 | the loop joins one line per covered header, or stops at the first unknown name |
| `HttpSigning.SignHttpRequestsBatch` | fedify-sidecar/activitypods-integration/signing.service.js:251-327 | the grouping and signing loops compute the reference answers |
| `HttpSigning.GroupByActor` | fedify-sidecar/activitypods-integration/signing.service.js:269-275 | the map lists actors by first appearance and each actor's requests in order |
| `HttpSigning.OneAnswerEach` | fedify-sidecar/activitypods-integration/signing.service.js:251-327 | each request gets one answer bearing its id; an oversized batch is refused in request order, any other is answered as a stable grouping by actor |
| `HttpSigning.OrderIsStableGrouping` | fedify-sidecar/activitypods-integration/signing.service.js:269-324 | the answering order is a permutation, groups by first appearance, requests of one actor in order |
| `HttpSigning.OneActorCannotDisturbAnother` | fedify-sidecar/activitypods-integration/signing.service.js:279-324 | with any other services' answers about one actor and any other contents of its requests, every other actor's answers stay the same, in the same places |
| `HttpSigning.SignedExactlyWhen` | fedify-sidecar/activitypods-integration/signing.service.js:279-806 | in any batch within the limit a request is answered with a signature if and only if its actor is local with a private key and key id, its fields are acceptable and the actor's own key signs its text, whatever else the batch holds |
| `HttpSigning.ReceiverRebuildsTheText` | fedify-sidecar/activitypods-integration/signing.service.js:659-802 | an answered request was signed with its own local actor's key, and the answer gives its method, path, host, date and body digest; the Signature header reads as key id, algorithm, covered headers and signature if and only if no value holds a quote, and then the text a receiver rebuilds from the headers read there, the request line, Host, Date and Digest is the text signed; under the profile covering content-type, if and only if the content type sent is the request's own or the default |
| `HttpSigning.HeaderReadsIff` | fedify-sidecar/activitypods-integration/signing.service.js:767-774 | the header splits into its four parameters if and only if neither key id nor signature holds a quote |
| `HttpSigning.RefusedBecause` | fedify-sidecar/activitypods-integration/signing.service.js:279-806 | over the whole batch, a refused request is answered with the first thing wrong with its actor, its fields, its digest or the signing, in the order the service checks them |
| `HttpSigning.TextReadsBackIff` | fedify-sidecar/activitypods-integration/signing.service.js:52-67 | the signed text splits back into exactly the covered headers and values if and only if no value holds a newline |
| `SlotLimiter.DeliveryService.WaitForDomainSlot` | fedify-sidecar/archive/legacy/delivery.js:238-256 | enters, or queues when all slots are held, exactly as the step says |
| `SlotLimiter.DeliveryService.TimerFires` | fedify-sidecar/archive/legacy/delivery.js:258-264 | frees a slot and lets the first waiter in, as one step |
| `SlotLimiter.EveryRunIsFair` | fedify-sidecar/archive/legacy/delivery.js:238-265 | with max at least 1, after any run from no callers, per domain: active at most max and equal to the outstanding timers, callers let in first come first served, and waiters only while all slots are held |
| `SlotLimiter.OtherDomainsUntouched` | fedify-sidecar/archive/legacy/delivery.js:246-264 | a step for one domain changes nothing of another |
| `SlotLimiter.WaiterEnters` | fedify-sidecar/archive/legacy/delivery.js:258-264 | a caller waiting at position k enters, as the (k+1)-th from now, once k + 1 slots of its domain were released, whatever else happens |
| `SlotLimiter.NobodyEntersWithoutRoom` | fedify-sidecar/archive/legacy/delivery.js:248-253 | with max 0 nobody ever enters |
| `BulkIndex.OpenSearchService.IndexDocument` | fedify-sidecar/archive/legacy/opensearch.js:290-300 | pushes action and document and flushes when large enough; a throw while serialising leaves both in the buffer |
| `BulkIndex.OpenSearchService.HandleFirehoseMessage` | fedify-sidecar/archive/legacy/opensearch.js:176-187 | is the message step: a null value rejects uncounted, a mapping or serialising failure is counted |
| `BulkIndex.OpenSearchService.FlushBulk` | fedify-sidecar/archive/legacy/opensearch.js:316-323 | swaps the buffer for an empty one and sends it, unless empty |
| `BulkIndex.OpenSearchService.BulkEnds` | fedify-sidecar/archive/legacy/opensearch.js:323-338 | is the response step for any request in flight |
| `BulkIndex.EveryMessageIsAccountedFor` | fedify-sidecar/archive/legacy/opensearch.js:176-187 | indexed + failed + buffered + in flight, with the null values, is the number of messages handled plus the throws while serialising; so it is the number of messages if and only if there were as many throws as null values |
| `BulkIndex.FailuresAreCounted` | fedify-sidecar/archive/legacy/opensearch.js:325-337 | failed is zero if and only if nothing that is counted failed, and then every message but the null values is indexed, buffered or in flight |
| `BulkIndex.ThrowCountsTwice` | fedify-sidecar/archive/legacy/opensearch.js:297-338 | whatever the configuration, if serialising throws on a message's document and the buffer is sent later, that one message is counted twice, however the request ends |
| `BulkIndex.EveryDocumentIsSentOnce` | fedify-sidecar/archive/legacy/opensearch.js:290-338 | the bodies sent, in order, followed by the buffer hold exactly the documents the messages were mapped to, in order; each body sent is in flight or has ended, once; bodies alternate action and its document |
| `Percentiles.RoundIsMonotone` | fedify-sidecar/scripts/benchmark-redpanda-compression-v2.ts:406 | rounding to six places never reverses an order, over all numbers |
| `Percentiles.RoundIsNearest` | fedify-sidecar/scripts/benchmark-redpanda-compression-v2.ts:406 | rounding is symmetric and moves a number by at most half of the sixth place |
| `Percentiles.QuantileIsMonotone` | fedify-sidecar/scripts/benchmark-redpanda-compression-v2.ts:404 | a larger quantile is never a smaller sample |
| `Percentiles.PercentileIsLeast` | fedify-sidecar/scripts/benchmark-opensearch-os4b-batching.ts:21-24 | the p-quantile is the least sample that at least a share p of the samples does not exceed |
| `Percentiles.SpreadIs` | fedify-sidecar/scripts/benchmark-redpanda-compression-v2.ts:403 | p50, p95 and p99 are the rounded least samples covering their shares, max the rounded largest sample |
| `Percentiles.SpreadIsChain` | fedify-sidecar/scripts/benchmark-redpanda-compression-v2.ts:403-404 | p50 <= p95 <= p99 <= max for every run |
| `Percentiles.MiddleHalves` | fedify-sidecar/scripts/benchmark-redpanda-compression-v2.ts:405 | at least half of the samples lie on either side of the median |
| `Percentiles.MedianIsMonotone` | fedify-sidecar/scripts/benchmark-redpanda-compression-v2.ts:405 | the median respects the pointwise order for odd and even lengths |
| `Percentiles.MedianIsSymmetric` | fedify-sidecar/scripts/benchmark-redpanda-compression-v2.ts:405 | negating every sample negates the median |
| `Percentiles.MedianScenarioKeepsChain` | fedify-sidecar/scripts/benchmark-redpanda-compression-v2.ts:268-300 | a scenario has a median if and only if it has the configured number of repeats, and componentwise medians over any number of runs keep the chain |
| `ParetoFrontier.Compare` | fedify-sidecar/scripts/benchmark-redpanda-compression-v2.ts:302-332 | the loop pushes one reason for each guardrail exceeded, or stops at a missing scenario |
| `ParetoFrontier.ComparisonIs` | fedify-sidecar/scripts/benchmark-redpanda-compression-v2.ts:302-332 | a comparison gives a reason for exactly the guardrails passed, and the rounded ratio of each of the four measures to gzip's |
| `ParetoFrontier.EligibleIff` | fedify-sidecar/scripts/benchmark-redpanda-compression-v2.ts:304-317 | an arm is eligible if and only if it passes no p95, p99 or CPU guardrail, over zero baselines too |
| `ParetoFrontier.GzipIsEligible` | fedify-sidecar/scripts/benchmark-redpanda-compression-v2.ts:302-317 | gzip against itself is always eligible, whatever was measured, zeros included |
| `ParetoFrontier.CostlierNeverDominates` | fedify-sidecar/scripts/benchmark-redpanda-compression-v2.ts:319-336 | an arm measured no costlier than another in infrastructure and CPU is never dominated by it |
| `ParetoFrontier.FrontierCovers` | fedify-sidecar/scripts/benchmark-redpanda-compression-v2.ts:334-337 | every eligible comparison off the frontier is beaten by one on it |
| `ParetoFrontier.FrontierIsAntichain` | fedify-sidecar/scripts/benchmark-redpanda-compression-v2.ts:334-337 | one frontier member beats another only if both bear one arm name, so never when arm names are distinct |
| `ParetoFrontier.BenchmarkFrontierIs` | fedify-sidecar/scripts/benchmark-redpanda-compression-v2.ts:97-100 | over the benchmark's arms an arm is reported if and only if it is eligible and no eligible arm is cheaper, so no reported arm is cheaper than another |
| `ParetoFrontier.FrontierIsEmptyIff` | fedify-sidecar/scripts/benchmark-redpanda-compression-v2.ts:334-337 | the frontier is empty if and only if nothing is eligible |
| `ParetoFrontier.BenchmarkFrontierIsNeverEmpty` | fedify-sidecar/scripts/benchmark-redpanda-compression-v2.ts:97-100 | comparing every arm with gzip, gzip among them, never gives an empty frontier |
| `ParetoFrontier.ParetoIs` | fedify-sidecar/scripts/benchmark-opensearch-os4b-batching.ts:133-140 | the four-objective frontier is exactly the rows no row beats |
| `ParetoFrontier.ParetoCovers` | fedify-sidecar/scripts/benchmark-opensearch-os4b-batching.ts:133-140 | every row off it is beaten by one on it, and no row on it beats another |
| `ParetoFrontier.ParetoIsEmptyIff` | fedify-sidecar/scripts/benchmark-opensearch-os4b-batching.ts:133-140 | it is empty only for no rows |

## Left out

- Network, Redis, Kafka, OpenSearch, Docker and file I/O, `ensureConnected`, consumer-group creation, publish and subscribe wake-ups, and the HTTP requests themselves: only their effect on the modelled state is kept.
- Liveness of the queue: a handler that keeps throwing on the first entry of a claimed batch skips the rest, so recovery is stated for handlers that never throw.
- How far XAUTOCLAIM scans is a parameter; which of the idle entries it takes and how many entries an approximate MAXLEN trims are over-approximated by any legal choice; time is one shared monotone clock, of which enqueuing and moving may use an older reading, and message identifiers from `randomUUID` are taken as fresh.
- QueueDeployment.Deployment.Listen: one worker's loop with no other command in between and no time passing but after a throw; rounds interleaved command by command are runs of the transition system. The repeated timer that also moves delayed messages is another mover there.
- Malformed members of the delayed set, which only another program could write, and entries whose data is not JSON, beyond entries without data.
- `URL` parsing, `localeCompare`, JSON text and Unicode case mapping: a partial parser, a total order, trees, and ASCII letters; UTF-16 code units are characters; a page fetched twice within one resolution is taken to read the same.
- Log lines, metrics other than the optimized count, and timers other than slot releases.
- DeliveryTargets.EndpointsArePreserved: assumes that no parsed hostname holds a vertical bar, which the deduplication key uses as separator, because the WHATWG URL parser forbids that character in a host.
- DeliveryTargets.DedupedAre: makes the same assumption about the targets' domains.
- `SHA-256`, RSA and ECDSA are uninterpreted functions; `hasValidSha256Digest` is one too, so the parsing of Digest headers is not part of this model.
- The bearer-token check of the signing service, `getCompressedPublicKey`, `signSecp256k1` and the ATProto actions: thin, or cryptography alone.
- Profile names that are properties of every JavaScript object, such as `constructor`: they fail inside the signer rather than as unknown profiles. Error messages carry no interpolated values.
- SlotLimiter: a release and the wake-up it triggers are one step, which holds because a timer callback starts with an empty microtask queue.
- The origin-evidence parser of `RemoteFixtureActivityPodsOrigin.ts` is a parameter of EvidenceSummary: its target normalisation is another module's.
- Percentiles: arithmetic is over real numbers; the rounding of binary floating point, which can move a quantile's index, is not modelled.
- ParetoFrontier.CostlierNeverDominates: requires gzip's own measures to be positive, as measured volumes are; with a zero the ratios are infinite or not a number and compare as JavaScript does.
- The break-even and delta figures of `compare`, arm summaries, and the benchmark drivers: arithmetic without branches.
- `readBoundedJsonBody`, `normalizeControlledTargetStatsUrl`, the fixture servers and clients in `src/adsp`, `src/index.ts`, media handling and the smoke scripts: wiring and one-branch facts.
- `redpanda-message-queue.ts` and `delivery-worker.ts` of the archive: the first restarts its attempt count when it re-enqueues, the second depends on a queue module that is not part of this model.
