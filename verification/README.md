# Verification of the agent runtime's state machines

This project models the small state machines and algorithms that carry the Xana agent
runtime, and proves what they are for: every update given to the Desktop queue is accounted
for, with the exact condition for losing one in silence; controller leases linearize authority;
capability resolution is complete, and closed, under exact conditions; published
artifacts are whole forever; completion evidence means proof; durable history leads memory by
at most one message; no configuration update is lost; dropped diagnostics are conserved; and a
rendered table can be read back.

Protocols whose steps interleave (deferred delivery, artifact publication, configuration
writes, diagnostic emitters) are state machines over atomic steps; their theorems hold after
every finite run.  Code that updates an object in place is a class whose methods are proved
equal to functions, and the theorems are about those functions.  What such a function answers
is fixed in turn by lemmas that say it of the inputs alone, case by case and in both
directions, without the helper predicates it is written with (the lemmas named `...Exactly`).

| files | component |
|---|---|
| `DeferredQueue.dfy`, `DeferredOffers.dfy`, `DeferredRuns.dfy`, `DeferredChannel.dfy`, `DeferredLosses.dfy`, `DeferredOrder.dfy`, `DeferredExamples.dfy` | deferred delivery to the Desktop projection (`src/desktop.rs`) |
| `ControllerLeases.dfy`, `LeaseResults.dfy` | conversation controller leases (`src/controller.rs`) |
| `CapabilitySearch.dfy`, `CapabilityProperties.dfy`, `CapabilityHints.dfy`, `CapabilityClosure.dfy`, `CapabilitySelection.dfy`, `CapabilityResolve.dfy`, `ResolveResults.dfy`, `ResolveErrors.dfy`, `CapabilityOrder.dfy` | capability resolution (`src/capability.rs`) |
| `ArtifactStore.dfy`, `ArtifactRecovery.dfy`, `ArtifactPuts.dfy`, `ArtifactReader.dfy` | content-addressed artifacts (`src/artifact.rs`) |
| `CompletionEvidence.dfy`, `EvidenceSupport.dfy` | completion evidence (`src/completion_evidence.rs`, `src/completion_evidence/verification.rs`) |
| `AgentTurn.dfy`, `AgentTurnProperties.dfy`, `AgentTurnCalls.dfy`, `Usage.dfy`, `UsageResults.dfy` | the native turn loop, its recovery and the usage algebra (`src/agent.rs`, `src/agent/recovery.rs`) |
| `ConfigWrites.dfy`, `ConfigFiles.dfy` | the configuration write protocol (`src/config_edit.rs`, `src/config.rs`) |
| `Diagnostics.dfy`, `LogSink.dfy` | drop accounting, breadcrumbs and log rotation (`src/diagnostics.rs`) |
| `Documents.dfy`, `DocumentTables.dfy`, `DocumentResults.dfy` | CSV tables and a reference parser of them (`src/documents.rs`) |
| `Common.dfy`, `Text.dfy` | shared types; UTF-8 length and white space |

`dafny verify dfyconfig.toml` checks the whole project.

Where a natural claim is false of the code, the project says so with a concrete input and,
except where it says otherwise, proves the exact condition:

- Delivery is not first in, first out: a publish tries the channel before the queue
  (`PublishOvertakesDeferral`).  A direct send can overtake exactly when the queue is not empty
  or the flusher holds an offered update (`DirectOvertakesExactlyThePending`).  Apart from that
  the stream is in the order of places, where a coalescing update has the place of the oldest
  one that it stands for (`OrderOfDelivery`): a later offer comes before an earlier one only in
  the place of a still earlier one (`LaterOnlyInAnOlderPlace`).  Accepted priority updates are
  always in order among themselves (`PrioritiesDeliveredInOrder`).
- The queue is not bounded by 64: the Snapshot branch pushes without a length check, and a
  stalled receiver lets it grow past any bound (`StalledQueueGrowsWithoutBound`); `QueueLimits`
  gives the true bound and `OfferGrowth` the only branch that passes 64.
- A loss can go unnoticed: a Snapshot discards queued updates that it does not carry
  (`ASnapshotLosesAnAttachment`) and cancels the notice of an earlier drop
  (`ASnapshotCancelsTheNotice`).  `LostInSilenceExactly` says for which offers the delivered
  stream has neither the update, nor one that restates it, nor a ResyncRequired, and
  `UnsaidExactly` for which it has neither of the first two.
- Lease generations saturate: at `u64::MAX` a confirmation read before a renewal still takes
  over (`CeilingConfirmationSurvivesRenewal`); tokens go stale exactly below the ceiling
  (`TouchMakesTokensStale`).
- Resolution is not closed under `required`: a second consumer of a missing id resolves, and so
  does a consumer of the first, as when 1 requires the missing 9 and 2 requires 9 or 1
  (`StrongClosureFails`).  Without optional edges it is closed exactly when in key order every
  id that cannot be satisfied is led, by first unused requirements, to a disabled id, a missing
  one or a cycle, and exactly when just what can be satisfied resolves
  (`ClosedExactlyWhenChased`).
- Nor is acyclicity what decides whether everything resolves: without optional edges it is
  (`CompleteExactlyWhenAcyclic`), but an optional edge can hide a required cycle
  (`OptionalEdgeHidesCycle`).  It does so exactly when each required edge back to an id on the
  stack of a plain depth-first walk comes after an optional one (`CompleteExactlyWhenHinted`).
- The comment at `src/artifact.rs:778-779` says that the writer's lock keeps recovery from
  removing a live writer's staging file.  It does exactly while the put is writing and no pass
  that had the lock before is still to remove (`RecoveryCanLoseExactlyTheUnguarded`); the
  windows before the lock, behind such a pass and before the link are reachable from an empty
  store (`TheWindowsAreReachable`).  Content safety does not depend on it.
- Affinity merging is not associative in general: it is exactly around lists that are free of
  duplicates or have 64 different elements (`AssociatesExactlyWhenRegular`), and `empty()` is a
  left identity exactly on distinct lists of at most 64 (`EmptyIsIdentity`).  Cutting a turn in
  two and merging keeps its affinities exactly when those of the second part that fit are new
  (`TranchesMergeExactlyWhenNew`); a turn that repeats an affinity can fail it
  (`RepeatedAffinityIsNotPreserved`).
- A log file can outgrow its limit, and need not be the reported records: what a failed write
  leaves is never counted, and the next record shares its line.  Both hold exactly when nothing
  is left (`FilesFitExactlyWhenNothingIsTorn`, `FilesAreTheReportedExactlyWhenNothingIsTorn`).

## Model

| member | source | states |
|---|---|---|
| DeferredQueue.DeferredDelivery.QueueUpdate | src/desktop.rs:3395-3427 | queueing in place is the function Queued: a Snapshot keeps only priority updates and clears the resync flag, a coalescing kind replaces its last queued twin, then append, evict the first non-priority entry for a priority one, or refuse and flag a resync |
| DeferredQueue.DeferredDelivery.Defer | src/desktop.rs:3371-3391 | a deferral queues the update, sets `flushing`, and asks for a flusher exactly when none was flagged |
| DeferredQueue.DeferredDelivery.TakeNext | src/desktop.rs:3454-3471 | the flusher pops the head, else turns the resync flag into one ResyncRequired, else clears `flushing` and stops |
| DeferredQueue.DeferredDelivery.Abandon | src/desktop.rs:3475-3482 | when the receiver is gone the queue and both flags are cleared |
| DeferredQueue.PriorityRetention | src/desktop.rs:3395-3447 | the queued CommandResults and BackendStoppeds survive every offer in their order, and a priority offer joins their end exactly when it is not refused |
| DeferredQueue.PriorityRefusal | src/desktop.rs:3411-3427 | a priority offer is refused if and only if at least 64 entries are queued and all are priority |
| DeferredQueue.ShapeKept | src/desktop.rs:3395-3427 | at most one Snapshot and one of each coalescing kind is ever queued |
| DeferredQueue.OfferGrowth | src/desktop.rs:3395-3427 | only a Snapshot can lengthen a queue that has reached 64 |
| DeferredQueue.AlternationGrowsWithoutBound | src/desktop.rs:3395-3427 | alternating Snapshot and CommandResult onto a full all-priority queue lengthens it by one each time, whatever its length |
| DeferredQueue.ResultsFillTheQueue | src/desktop.rs:3411-3414 | sixty-four results reach the length that alternation starts from |
| DeferredQueue.SnapshotLosesUncarried | src/desktop.rs:3396-3401 | queueing a Snapshot removes every queued update of a kind it does not carry and leaves no resync flagged; what this means for runs is LostInSilenceExactly |
| DeferredOffers.KindsAgree | src/desktop.rs:3429-3447 | by name: the kinds that are never given up are CommandResult and BackendStopped, the coalescing ones Navigation, Layout, Settings and SettingsDraft, and those that a Snapshot does not carry Vision, SettingsDraft, SettingsReceipt and AttachmentStaged |
| DeferredOffers.SnapshotExactly | src/desktop.rs:3396-3401 | a Snapshot leaves exactly the queued CommandResults and BackendStoppeds, in their order, behind them itself, and no resync flagged |
| DeferredOffers.ReplacementExactly | src/desktop.rs:3402-3410 | a Navigation, Layout, Settings or SettingsDraft replaces the last queued one of its kind where it stands, whatever the length of the queue, and nothing else moves |
| DeferredOffers.JoiningExactly | src/desktop.rs:3411-3414 | any other offer joins the end while fewer than 64 are queued |
| DeferredOffers.EvictionExactly | src/desktop.rs:3415-3425 | from 64 on a CommandResult or BackendStopped takes out the oldest entry of another kind, joins the end and flags a resync |
| DeferredOffers.RefusalExactly | src/desktop.rs:3415-3427 | otherwise the queue stays and a resync is flagged: for any other kind from 64 on, and for those two when only they are queued |
| DeferredOffers.SparedStay | src/desktop.rs:3395-3447 | in every case each queued CommandResult and BackendStopped stays, in order, and an offered one joins them unless 64 or more entries are queued and all are of those two kinds |
| DeferredRuns.ExactlyOneFlusher | src/desktop.rs:3371-3485 | in every interleaving the flusher tasks number one if `flushing` and none otherwise, and a non-empty queue or a flagged resync always has one |
| DeferredRuns.NoUnaccountedLoss | src/desktop.rs:3342-3485 | with the channel open, every update ever deferred is queued, held by the flusher, delivered, coalesced into a later one of its kind, superseded by a later Snapshot that carries it, lost to a later Snapshot that does not, or dropped with its notice still due or made |
| DeferredLosses.IdleMeansSettled | src/desktop.rs:3449-3485 | once the flusher is idle no update is pending, and each is in the delivered stream after the point of its offer as itself, as a later update of its coalescing kind, as a later Snapshot or as a ResyncRequired; a dropped one by a notice of that very drop |
| DeferredLosses.LostInSilenceExactly | src/desktop.rs:3395-3485 | once idle, the stream after the point of an offer has neither the update, nor one that restates it (a later one of its coalescing kind, or a Snapshot that carries it), nor a ResyncRequired, if and only if Snapshots do not carry its kind, its coalescing chain ends in an update that a Snapshot took or that was dropped, and neither a later update of its coalescing kind nor a ResyncRequired was delivered since; for such a kind a ResyncRequired is a notice and no more |
| DeferredLosses.LostExactlyToASnapshot | src/desktop.rs:3396-3401 | an update becomes lost in exactly the steps that queue a Snapshot while it is queued and of a kind that the Snapshot does not carry |
| DeferredLosses.UnsaidExactly | src/desktop.rs:3395-3485 | once idle, the stream after the point of an offer has neither the update nor one that restates it if and only if the last update that took its place was taken by a Snapshot that does not carry it, or dropped, and no later update restates it |
| DeferredRuns.PrioritiesDeliveredInOrder | src/desktop.rs:3395-3485 | the delivered priority updates among the deferred are a prefix of the accepted ones, in order, and all of them when idle |
| DeferredOrder.DirectOvertakesExactlyThePending | src/desktop.rs:3342-3391 | in every reachable state a direct send can come to stand before an update offered earlier if and only if the queue is not empty or the flusher holds an offered update; while no flusher runs it cannot |
| DeferredOrder.OrderOfDelivery | src/desktop.rs:3342-3485 | in every run the delivered deferred updates stand strictly in the order of their places, the place of an offer being the oldest one whose coalescing chain ends in it, and direct updates behind all that was sent or delivered before them; if every direct send found nothing pending, none stands behind an offer with an older place either |
| DeferredOrder.LaterOnlyInAnOlderPlace | src/desktop.rs:3395-3485 | in every run a later offer is delivered before an earlier one only if a still earlier one coalesced into it |
| DeferredExamples.PublishOvertakesDeferral | src/desktop.rs:3342-3391 | a run from the start in which a publish is delivered before an update deferred earlier, so that its stream is not in first-in-first-out order |
| DeferredExamples.StalledQueueGrowsWithoutBound | src/desktop.rs:3371-3427 | for every n, a run from the start in which the receiver takes nothing and 64 + n updates are queued |
| DeferredExamples.Drains | src/desktop.rs:3449-3485 | from every state that keeps the invariants and has the receiver there, some continuation without further offers ends with no flusher, and makes up no notice unless one was flagged |
| DeferredExamples.ASnapshotLosesAnAttachment | src/desktop.rs:3395-3427 | a run from the start that ends idle and whose stream after the offer of an attachment has neither it nor any notice, because a Snapshot took it |
| DeferredExamples.ASnapshotCancelsTheNotice | src/desktop.rs:3395-3427 | a run from the start that ends idle and whose stream after an offer has neither it nor any notice, because a Snapshot cleared the flag of its drop |
| DeferredRuns.QueueLimits | src/desktop.rs:3395-3427 | in every run the queue holds at most 64 plus the number of Snapshots queued, one Snapshot and one of each coalescing kind |
| DeferredRuns.FateStep | src/desktop.rs:3395-3485 | the fate of an update only moves forward; a waiting priority update can only be popped while the receiver is there |
| DeferredRuns.SettledForGood | src/desktop.rs:3395-3485 | what was coalesced, superseded, lost, dropped or delivered stays so in every continuation |
| DeferredRuns.OneFlusherStep | src/desktop.rs:3371-3485 | every step keeps the flusher count equal to the flag, the send-failure exit included |
| DeferredChannel.PublishingExactly | src/desktop.rs:3342-3369 | in every run the channel holds at most 256 updates; while its receiver is there an update can be sent exactly while it holds fewer and turned away exactly when it holds 256 or the flusher's send waits; once the receiver is gone a critical update fails |
| DeferredChannel.CriticalEndsExactly | src/desktop.rs:3357-3391 | a critical update is sent, or deferred with a flusher at work, or fails, and leaves nothing else behind |
| DeferredChannel.NothingIsSentOnceClosed | src/desktop.rs:3342-3485 | after the receiver closes the channel it accepts nothing more in any run |
| DeferredChannel.ClosedFlusherEnds | src/desktop.rs:3449-3485 | from every state that keeps the invariants and has no receiver, the flusher ends in at most four steps of its own, with no flag, an empty queue, and every undelivered update given up |
| DeferredChannel.FailedSendAbandons | src/desktop.rs:3473-3485 | a failed send and its clean-up empty the queue, drop both flags and end the flusher, and change nothing else |
| ControllerLeasing.ControllerLeases.AcquireLease | src/controller.rs:216-281 | acquire in place is the function Acquire, whose results AcquireExactly fixes: renewal for the holder, otherwise a matching confirmation and no pending approval are demanded before a takeover |
| ControllerLeasing.ControllerLeases.RenewLease | src/controller.rs:283-310 | only the connected holder renews; renewal raises the generation and rotates the capability |
| ControllerLeasing.ControllerLeases.DisconnectClient | src/controller.rs:312-354 | every connected lease of the client starts its grace under the next generation, reported once each in conversation order; other leases are untouched |
| ControllerLeasing.ControllerLeases.ReconnectLease | src/controller.rs:356-397 | reconnect grants to the presenter of the current capability of a lease within its grace and reports expired and invalid ones apart |
| ControllerLeasing.ControllerLeases.ReleaseLease | src/controller.rs:399-417 | release removes the lease held by that client, connected or not, and keeps its generation |
| ControllerLeasing.ControllerLeases.ExpireLease | src/controller.rs:419-440 | expiry removes a reconnecting lease of exactly the token's generation once its deadline has passed |
| ControllerLeasing.ControllerLeases.ExpireAll | src/controller.rs:444-455 | shutdown removes every lease, reports each once in order, and keeps all generations |
| ControllerLeasing.ConstantTimeEqual | src/controller.rs:505-510 | the accumulated byte differences are zero if and only if the digests are equal |
| ControllerLeasing.LeasesMatchGenerations | src/controller.rs:205-478 | in every reachable state a live lease's generation is its entry in `generations` and its digest that of the latest capability issued for it |
| ControllerLeasing.ConsistentRun | src/controller.rs:205-478 | from any consistent state every run keeps that, with distinct latest capabilities |
| ControllerLeasing.GenerationStep | src/controller.rs:473-477 | grants and disconnects raise the conversation's generation by one up to the u64 ceiling; nothing else moves any generation |
| ControllerLeasing.GenerationsNeverFall | src/controller.rs:216-477 | across release, expiry and shutdown generations never fall |
| ControllerLeasing.StaleTokensAreInert | src/controller.rs:216-440 | a takeover confirmation or expiry token of an earlier generation is inert in every later state |
| ControllerLeasing.TouchMakesTokensStale | src/controller.rs:473-477 | a grant or disconnect makes current tokens stale if and only if the generation is below `u64::MAX` |
| ControllerLeasing.CeilingConfirmationSurvivesRenewal | src/controller.rs:216-310 | a confirmation read before a renewal still takes over after it exactly at the ceiling |
| ControllerLeasing.AcceptanceIsLatest | src/controller.rs:356-397 | reconnect accepts exactly the latest capability of one lease within its grace, at most one per conversation |
| ControllerLeasing.CapabilityDies | src/controller.rs:283-455 | any grant on a conversation and any end of its lease kill the capability that was current |
| ControllerLeasing.CapabilitySurvives | src/controller.rs:216-455 | a step that neither grants on the conversation nor ends its lease keeps its latest capability and its lease, but for what a disconnect of its client does to it |
| ControllerLeasing.DeadForever | src/controller.rs:356-397 | a dead capability is refused as invalid in every later state of every run |
| ControllerLeasing.DisconnectGrace | src/controller.rs:312-397 | right after a disconnect the capability is accepted strictly before the deadline and the token expires the lease exactly from the deadline on |
| ControllerLeasing.GraceIsKept | src/controller.rs:312-455 | over every run without a grant on the conversation or an end of its lease, a reconnecting lease, its deadline included, and its capability stay as they are |
| ControllerLeasing.SurvivesUntilTheDeadline | src/controller.rs:312-455 | in every such run after a disconnect the earlier capability is accepted if and only if the time is before the deadline, and the token of the disconnect expires the lease exactly from then on |
| ControllerLeasing.ReconnectOrExpire | src/controller.rs:356-440 | for a reconnecting lease, reconnecting and expiring with the current token are complementary at every instant |
| LeaseResults.AcquireExactly | src/controller.rs:216-281 | for a client that does not control the conversation, acquiring succeeds if and only if there is no lease, or the confirmation names its controller and generation and no approval is pending; then exactly that lease is replaced by a connected one of the client under the new controller and the next generation; on failure the table stays and the error says what was missing |
| LeaseResults.AskedConfirmationIsAccepted | src/controller.rs:216-281 | the snapshot reported with TakeoverConfirmationRequired holds a confirmation that is accepted, and with a pending approval is answered by PendingApproval |
| LeaseResults.RenewExactly | src/controller.rs:283-310 | exactly the connected holder renews, directly or by acquiring, under the same controller; anyone else changes nothing |
| LeaseResults.ReconnectExactly | src/controller.rs:356-397 | the least conversation with the presented capability decides: at its deadline or later the answer is expired, and before it the presenter holds that lease under the same controller, the next generation and the new capability |
| LeaseResults.ReconnectInvalidExactly | src/controller.rs:356-397 | reconnecting is invalid if and only if no lease has the presented capability, and no failure changes the table |
| LeaseResults.ReleaseExactly | src/controller.rs:399-417 | release removes exactly the lease of that client, connected or not, and keeps every generation; otherwise it fails and changes nothing |
| LeaseResults.ExpireExactly | src/controller.rs:419-440 | expiry removes exactly a reconnecting lease of the token's generation from its deadline on |
| LeaseResults.DisconnectExactly | src/controller.rs:312-354 | exactly the connected leases of the client start their grace, which ends at the saturated deadline, and the report of each shows it with the token that will expire it |
| LeaseResults.LeasesComeAndGoExactly | src/controller.rs:216-455 | in every step a lease ends exactly by its client's release, by its own expiry token from its deadline on, or by shutdown, and one begins exactly by acquiring a conversation that has none |
| CapabilitySearch.Resolver.VisitId | src/capability.rs:286-361 | the recursive visit over its mutable tables is the function Visit, memo branch included, and terminates |
| CapabilitySearch.Resolver.VisitAll | src/capability.rs:363-378 | the candidate loop in key order is the function Searched |
| CapabilitySearch.StackShrinks | src/capability.rs:304-323 | an expansion leaves fewer declared ids off the visiting stack, which is why the recursion ends |
| CapabilityProperties.WeakClosure | src/capability.rs:286-378 | for every input each id is expanded at most once, every declared id ends resolved or recorded, and each required id of a resolved capability is resolved or recorded for a reason other than being disabled |
| CapabilityProperties.StrongClosureFails | src/capability.rs:298-303 | with a first capability refused over a missing id, a second that requires the same id or the first resolves although its required id does not |
| CapabilityProperties.AcyclicIsComplete | src/capability.rs:286-378 | with nothing deselected, required ids usable and no cycle through required or optional edges, every enabled capability resolves and the result is closed under `required` |
| CapabilityProperties.CompleteExactlyWhenAcyclic | src/capability.rs:286-378 | without optional edges resolution is complete if and only if the required ids of usable ids are usable and the required edges acyclic |
| CapabilityProperties.OptionalEdgeHidesCycle | src/capability.rs:298-358 | with an optional edge everything can resolve although the required edges have a cycle |
| CapabilityHints.CompleteExactlyWhenHinted | src/capability.rs:286-378 | for every catalog, with nothing deselected, resolution is complete if and only if the required ids of usable ids are usable and, in a plain depth-first walk that refuses nothing, each required edge back to an id on the stack comes after an optional edge back to it |
| CapabilityClosure.ClosedExactlyWhenChased | src/capability.rs:286-378 | without optional edges and with nothing deselected, no resolved capability lacks a required one if and only if in key order every id that cannot be satisfied and was not used up is led, by first unused requirements, to a disabled id, a missing one or a cycle; and if and only if exactly the satisfiable ids resolve |
| CapabilityClosure.SatisfiableExists | src/capability.rs:286-361 | every catalog has a set of satisfiable ids, those founded on usable ids by required edges alone |
| CapabilityClosure.SatisfiableIsUnique | src/capability.rs:286-361 | and only one |
| CapabilitySelection.SelectionReaches | src/capability.rs:363-378 | with a selection, whatever resolves is reached from a selected id along required and optional edges, and a selected usable id without requirements resolves |
| CapabilitySelection.SelectingAllIsNoSelection | src/capability.rs:363-378 | selecting every declared id is selecting nothing |
| CapabilityResolve.GroupClaims | src/capability.rs:248-269 | the entry loop lists for every id exactly its owners in order |
| CapabilityResolve.FindContested | src/capability.rs:271-278 | a duplicate is reported if and only if some id has two owners, and it is the least such id with all of them |
| CapabilityResolve.FindStrayTool | src/capability.rs:382-389 | the first tool whose capability is not declared is reported, if there is one |
| CapabilityResolve.FindEmptyProvider | src/capability.rs:253-259 | the first provider in id order that contributes nothing is reported, if there is one |
| CapabilityResolve.Resolve | src/capability.rs:247-414 | the whole of resolution, errors in the order the code checks them, is the function Resolution, whose answers ResolutionExactly fixes |
| ResolveResults.ResolutionExactly | src/capability.rs:247-414 | resolution succeeds if and only if no provider is empty, no id is declared twice, every listed tool's capability is declared, and no two listed tools of resolved capabilities have one id; the answer is then the capabilities that the search of the declared descriptors resolves and exactly the ids of the listed tools of those |
| ResolveResults.CatalogExists | src/capability.rs:261-281 | every list of providers has such a catalog of what it declares |
| ResolveResults.AnswerCompleteExactlyWhenHinted | src/capability.rs:247-414 | the answer has all enabled capabilities if and only if the required ids are usable and the depth-first walk is hinted: the exact condition of the search, of what is answered |
| ResolveResults.AcyclicAnswerIsComplete | src/capability.rs:247-414 | for acyclic catalogs with usable requirements the answer has all enabled capabilities and all that they require |
| ResolveResults.AnswerClosedExactlyWhenChased | src/capability.rs:247-414 | without optional edges the answer is closed under `required`, and is exactly the satisfiable set, if and only if the ids are chased |
| ResolveErrors.ErrorsNameTheirCause | src/capability.rs:247-414 | each error names its cause, whatever the order of the providers: the least empty provider; the least id declared twice, or listed twice for resolved capabilities, with exactly its providers in order and as often as they do so; or the first stray tool of the least provider that lists one |
| ResolveResults.Cascade | src/capability.rs:247-414 | which error is reported when several apply: an empty provider before a duplicate capability before a stray tool before a duplicate tool |
| CapabilityOrder.OrderDoesNotMatter | src/capability.rs:247-414 | permuting providers, or the descriptors and tools within them, changes neither success nor the capability and tool sets |
| ArtifactStore.PublishedAreWholeForever | src/artifact.rs:131-376 | under any interleaving of puts, crashes and recovery passes every hash-named file holds bytes hashing to its name and is never removed, replaced or changed |
| ArtifactStore.ExactlyOneCreates | src/artifact.rs:849-893 | of puts of equal bytes at most one reports `was_created`; a success for new bytes means exactly one hard link for them ever succeeded |
| ArtifactStore.RecoveryCanDefeatALink | src/artifact.rs:342-376 | from any state with a put about to link, one recovery pass can remove its staging file and make the put report failure |
| ArtifactRecovery.RecoveryCanLoseExactlyTheUnguarded | src/artifact.rs:776-893 | in every state reachable from a directory as found, some run of recovery alone removes the staging file of a live put if and only if the put is not writing, or a pass that locked the file earlier is still to remove it |
| ArtifactRecovery.GuardLasts | src/artifact.rs:849-893 | a guarded put keeps its staging file and its guard over every run in which it keeps writing, whatever else happens |
| ArtifactRecovery.LosingTheFileDefeatsThePut | src/artifact.rs:342-376 | a put that lost its staging file before the link never reports success in any continuation |
| ArtifactRecovery.LosableIsDefeatable | src/artifact.rs:776-843 | wherever recovery can remove the file it can bring the put into that state |
| ArtifactRecovery.TheWindowsAreReachable | src/artifact.rs:776-893 | runs from an empty store, for a put of any bytes, reach a removable staging file before the lock, before the link, and while the put holds the lock behind a pass that unlocked and has yet to remove |
| ArtifactRecovery.TheGuardIsReachable | src/artifact.rs:849-893 | a run from an empty store reaches a guarded put |
| ArtifactPuts.SuccessMeansPublished | src/artifact.rs:131-376 | in every interleaving a put that reports success wrote exactly what it was given, the bytes or as many as were declared, and the file named for their hash holds those very bytes if the put created it, and as many bytes of the same hash if it existed |
| ArtifactPuts.StagedIsABeginning | src/artifact.rs:849-893 | in every interleaving the staging file of a put of known bytes holds a beginning of those bytes |
| ArtifactPuts.PutOfNewBytesExactly | src/artifact.rs:131-376 | a put left alone of bytes not yet published can always take its steps, reports creation, and adds exactly the published file |
| ArtifactPuts.PutOfPublishedBytesExactly | src/artifact.rs:131-376 | a put left alone of bytes whose name is taken ends with success exactly when the file there has their length and hash, and leaves the directory as it was |
| ArtifactPuts.FailedPutExactly | src/artifact.rs:856-893 | a put that fails on the way removes its staging file and changes nothing else |
| ArtifactPuts.LocksExclude | src/artifact.rs:820-837 | in every interleaving a file's lock has at most one holder, and a recovery pass that opened a file goes on to lock it exactly when nobody holds it and otherwise retains it |
| ArtifactPuts.CrashedWritersAreCollected | src/artifact.rs:774-843 | when the holder of a staging file's lock crashes, writer or pass, one recovery pass removes the file and changes neither what is published nor another put |
| ArtifactStore.SafeStep | src/artifact.rs:780-893 | every step keeps staging files private to their put, hash-named files whole, and the link log exact |
| ArtifactStore.SafeRun | src/artifact.rs:780-893 | every run keeps them, and preserves what is published |
| ArtifactStore.AttributedStep | src/artifact.rs:849-893 | every hash-named file not there at the start has exactly one link in the log, and a link is in the log exactly when its put reports having created it, unless that put has crashed |
| ArtifactReader.VerifyPath | src/artifact.rs:895-942 | apart from I/O errors verification accepts exactly the files whose metadata length is the expected one, within the limit, and whose first that many bytes hash as expected; a file that changes between metadata and reads is included |
| ArtifactReader.ReadVerifiedRange | src/artifact.rs:429-550 | however the reads are chunked, a success is exactly the window of the content with `truncated_after` right, and every failure but I/O and growth is the first failing check |
| ArtifactReader.RangeExactly | src/artifact.rs:429-550 | the answer without I/O errors, byte by byte: the content from the offset on as far as the window goes, exactly of an admitted request for a file of the declared length and hash that is still named; and each error exactly under its condition, the first that applies |
| ArtifactReader.PagesCoverTheArtifact | src/artifact.rs:429-550 | the windows from an offset on concatenate to the rest of the artifact, all full but the last |
| ArtifactReader.ReadPages | src/artifact.rs:429-550 | reading range after range, each where the last ended, until `truncated_after` is false terminates; a success returns the rest of the artifact in its windows, an error of the first range is an error, and any other error is one of I/O |
| CompletionEvidence.DeliveryDecidesSupport | src/completion_evidence.rs:261-324 | an undelivered record is never supported; delivering bytes supports it if and only if they are not empty and everything else speaks for the work; only the last delivery counts |
| CompletionEvidence.CompletionRecord.Evaluate | src/completion_evidence.rs:266-324 | evaluation replaces the outcome by the cascade's and nothing else |
| CompletionEvidence.CompletionRecord.ReserveVerifier | src/completion_evidence/verification.rs:10-36 | a reservation is considered once, on a valid second record; an error leaves the record alone |
| CompletionEvidence.VerifyArtifacts | src/completion_evidence/verification.rs:41-74 | the verdict marks each artifact by the store's answer up to a cancellation, is Passed exactly when every answer succeeded, and is returned if and only if it validates |
| CompletionEvidence.PassedMeansGenuine | src/completion_evidence/verification.rs:52-62 | a passed verdict means every artifact's file had the recorded length and content hash when it was read |
| CompletionEvidence.SupportedExactlyWhenProven | src/completion_evidence.rs:266-358 | the ordered cascade supports a record if and only if everything in it speaks for the work, conditions included |
| CompletionEvidence.DeclaredIsNeverSupported | src/completion_evidence.rs:326-346 | a merely declared condition withholds support whatever was observed |
| CompletionEvidence.RaisedRevisionIsUnsupported | src/completion_evidence.rs:326-358 | raising `work_revision` without new checks unsupports every contract that asks for a command and un-supersedes every failed check |
| CompletionEvidence.ChainsAreFiniteAndFrozen | src/completion_evidence.rs:508-561 | accepted histories have at most three records numbered from one, about one generation, contract, kind and owner; the third follows only a Reserved second and changes only revision, verification, outcome and verified bits; recorded outcomes are evaluated ones |
| CompletionEvidence.SupportMeansProof | src/completion_evidence.rs:266-561 | a supported record of an accepted history is at least the second, claims completion, has no unknown effect, no unsuperseded failure and every condition satisfied; with artifacts it is the third, verification Passed |
| EvidenceSupport.OutcomeExactly | src/completion_evidence.rs:266-358 | the outcome by the facts in the record's lists: which check ran the command of a condition, by the hash of that command and directory, at the current revision; which verified fact is the artifact of a condition; which later passing check of the same digest repairs a failed one or a failed effect; in the order incomplete claim, doubt, unfinished work, unmet condition |
| EvidenceSupport.SupportRestsOnFacts | src/completion_evidence.rs:266-561 | a supported record of an accepted history has, for every command condition, a succeeded check of that very command and directory at the current revision, for every artifact condition a verified fact of that very reference, for every check that did not succeed a later passing one of its digest with exit code zero, and for every failed effect such a check of its invocation |
| EvidenceSupport.DeclarationExactly | src/completion_evidence.rs:51-259 | a declaration succeeds exactly for well-formed contracts, by the bytes and characters of their commands, directories and ids, and yields a record that has observed, delivered and reserved nothing |
| EvidenceSupport.ValidExactly | src/completion_evidence.rs:360-437 | the records that validate, exactly, fact by fact |
| EvidenceSupport.TransitionExactly | src/completion_evidence.rs:506-561 | a history may be continued by a record if and only if it validates with its evaluated outcome and is an empty interrupted declaration, a second record of the same work with nothing verified, or after a reservation the same record with a verdict |
| EvidenceSupport.AcceptedRecords | src/completion_evidence.rs:506-561 | the records of an accepted history validate, are numbered by their places and keep the declared contract |
| EvidenceSupport.ReservationExactly | src/completion_evidence/verification.rs:10-36 | considering a reservation, exactly: nothing without artifacts; else cancelled, unavailable if not authorized, exhausted or too many bytes, or reserved with the bytes of all artifacts; nothing else but the outcome changes |
| EvidenceSupport.VerdictExactly | src/completion_evidence/verification.rs:41-74 | the verdict marks each artifact by its answer, is cancelled, passed or failed accordingly, and changes nothing else but revision and outcome |
| CompletionEvidence.VerdictsAreFinal | src/completion_evidence.rs:506-560 | nothing may follow a verdict, nor a second record that is not Reserved |
| CompletionEvidence.DeclarationStartsAChain | src/completion_evidence.rs:229-259 | a fresh interrupted declaration that fits is an admissible first record; the constructor fails exactly on invalid contracts |
| CompletionEvidence.ReservationIsAdmissible | src/completion_evidence/verification.rs:10-36 | considering verification keeps a collected record admissible, reserves exactly authorized, affordable, uncancelled passes over some artifact, and cannot be repeated |
| CompletionEvidence.CheckedTotalIsTotal | src/completion_evidence/verification.rs:20-22 | the checked fold of artifact lengths is their sum if that fits u64 and nothing otherwise |
| CompletionEvidence.VerdictCompletesTheChain | src/completion_evidence/verification.rs:41-74 | what the verification pass returns completes an accepted history of declaration and reservation |
| AgentTurn.Conversation.RunTurn | src/agent.rs:546-805 | the loop over rounds, with its early exits and the memory-recovery exit, is the function Turn of the environment |
| AgentTurn.Conversation.RecoverAnswer | src/agent/recovery.rs:21-131 | recovery makes one request; a text answer that is not blank ends the turn, and otherwise the notice is committed, appended, and the turn fails |
| Text.BlankExactly | src/agent/recovery.rs:21-131 | a text is blank if and only if every character has the Unicode White_Space property |
| AgentTurn.Conversation.RunTools | src/agent.rs:682-798 | a round commits its assistant message, then each call's result in order, and then stops, recovers or goes on as the guard says |
| AgentTurn.Conversation.InvokeTools | src/agent.rs:709-783 | the loop over calls stops at the first failing one |
| AgentTurn.Conversation.AppendAssistant | src/agent.rs:682-707 | memory takes the assistant message only after its acknowledgement, and before the step is recorded |
| AgentTurnProperties.DurableHistoryLeads | src/agent.rs:583-804 | at every instant of a durable turn, recovery included, memory is a prefix of the acknowledged history, at most one message behind; requests and tools start only when they are equal; a turn that does not fail ends with them equal |
| AgentTurnProperties.TurnAppendsRounds | src/agent.rs:583-804 | a turn appends whole rounds, each one assistant message and one result per call in order; completion stops between rounds without appending the answer, recovery stops behind the round that needed it and appends only its failure notice, the budget means exactly the limit, a rejected assistant commit leaves whole rounds only, and any other failure leaves at most the beginning of one more |
| AgentTurnProperties.ToolsFollowTheirRequest | src/agent.rs:682-740 | every tool that runs was requested by an assistant message already in memory |
| AgentTurnCalls.TurnRunsExactlyTheUnblocked | src/agent.rs:546-805 | the tools that run in a turn are, in order and once each, exactly the reached calls that the guard does not block; every complete round reaches all its calls, the last one a first part of them; a turn that is halted or begins with recovery runs none |
| AgentTurnCalls.InvokeGoes | src/agent.rs:709-783 | one call: it runs if and only if the guard does not block it, the recorded result is the refusal if it does and the tool's output otherwise, and how it ends the turn follows from executor, acceptance, observation and retention, in that order |
| AgentTurnCalls.RoundExactly | src/agent.rs:583-804 | a round ends before any call for the first reason that applies, else its calls are reached up to the first that ends the turn, with each earlier one recorded, and after the last the guard has its word |
| AgentTurnCalls.RoundMessagesRecord | src/agent.rs:709-783 | the result messages of a whole round are those records, call by call |
| AgentTurnCalls.GuardedGuards | src/agent.rs:784-798 | a round whose results are all appended ends the turn with GuardStopped if and only if the guard stops and does not ask for recovery, and goes on exactly if it does neither |
| AgentTurnCalls.GuardRecovers | src/agent/recovery.rs:21-131 | recovery after a round ends by the first of its answers that applies; only a text without calls and with a visible character ends the turn well, and otherwise memory gains exactly the notice |
| AgentTurnCalls.TurnOpens | src/agent.rs:546-582 | a turn without rounds fails, a guard that stopped before fails it unless it asks for recovery, and recovery comes before any round |
| AgentTurnProperties.TranchesCompose | src/agent.rs:583-804 | a tranche that exhausts its budget followed by the next is the one longer turn, at every instant and in how it ends |
| Usage.SumComplete | src/agent.rs:954-961 | the early-stopping fold is the sum exactly when every request reported and the sum fits u64, and nothing otherwise |
| Usage.SumsMerge | src/agent.rs:954-961 | the sum over two lists is the merge of their sums |
| Usage.MergeCountAssociates | src/agent.rs:283-285 | merging counts is associative, overflow included |
| Usage.AppendAffinities | src/agent.rs:287-297 | the deduplicating loop that stops at 64 is the function MergeAffinities |
| Usage.MergeContents | src/agent.rs:287-297 | a merge keeps the left list as prefix, adds nothing foreign, stays distinct, and unless full contains the right list |
| Usage.AssociatesExactlyWhenRegular | src/agent.rs:287-297 | a list associates in the middle of every affinity merge if and only if it is free of duplicates or has 64 different elements |
| Usage.MergeAssociates | src/agent.rs:262-281 | merging turn usages is associative around any usage with such a list, overflow, saturation and truncation included |
| Usage.EmptyIsIdentity | src/agent.rs:244-281 | `empty()` is a right identity always and a left identity exactly on distinct affinity lists of at most 64 |
| Usage.TranchesMerge | src/agent.rs:925-951 | cutting a turn's requests in two and merging the parts changes no counter |
| Usage.TranchesMergeExactlyWhenNew | src/agent.rs:925-951 | merging the usages of two parts is the usage of the whole turn if and only if the affinities of the second part that fit behind those of the first are all new |
| Usage.DistinctTranchesMergeExactly | src/agent.rs:925-951 | nor the affinities, when the turn repeats none, however many there are |
| Usage.RepeatedAffinityIsNotPreserved | src/agent.rs:944-949 | a turn with one affinity twice has a usage that `empty()` does not preserve |
| UsageResults.TurnUsageExactly | src/agent.rs:925-961 | a turn's usage by fields of its requests: each counter is the sum when all requests report it and it fits u64 and is missing otherwise, and the affinities are the first 64 reported, in order |
| UsageResults.MergeExactly | src/agent.rs:262-281 | a merge by fields: each counter is the sum when both have it and it fits, and requests saturate |
| Usage.SessionUsage.Observe | src/agent.rs:196-208 | a session observes a turn by saturating every counter and marking the unreported partial |
| UsageResults.ObservationExactly | src/agent.rs:196-208 | an observation by fields: one more turn, each reported counter added up to `u64::MAX`, each unreported one kept and marked partial |
| Usage.SessionsCountWhatTurnsMerge | src/agent.rs:299-305 | a session counter is the saturated sum, complete when all turns reported; merging yields exactly that sum when it is complete and fits |
| Usage.SessionsAgreeWithMerges | src/agent.rs:195-305 | session counters and the merge of the same turns agree wherever the merge has a count |
| ConfigWrites.NoLostUpdate | src/config_edit.rs:89-178 | in every interleaving of edits, transactions, faults and crashes, the live contents form one chain, each write replaced exactly the content it was made from, backed-up writes left it as the backup, failures left the live content alone and, but for a crash or a failed restore, the backup too; no session writes twice |
| ConfigWrites.SoundStep | src/config.rs:2064-2189 | every step of every process keeps that |
| ConfigWrites.CompareSound | src/config_edit.rs:108-128 | a manual edit goes on only from a live content equal to the staged one, which reconciles, and touches no file |
| ConfigWrites.WriteLiveSound | src/config.rs:2172-2188 | a live write replaces exactly the content locked and read by the output made from it and is recorded so; a failed one changes no file and goes on to restore the backup if it was backed up |
| ConfigWrites.CrashSound | src/config.rs:1764-1817 | a crash of the lock holder leaves the live content as locked, and as the backup the one locked or the live content, recorded so; any other crash touches nothing |
| ConfigFiles.ConfigPair.CommitEdit | src/config_edit.rs:108-148 | the final edit transaction, run alone under the lock, writes exactly when the live file is legible and still the staged one, reconciles, and backup and live writes succeed; it says what both files then hold, and ends as the interleaved model's steps end |
| ConfigFiles.ConfigPair.CommitTransaction | src/config.rs:2088-2099 | so for a transaction's commit with or without backup |
| ConfigFiles.ConfigPair.InstallWithBackup | src/config.rs:2150-2189 | so for the backed-up write: the backup is the previous content once it is saved, and the prior backup again when the live write fails and it can be restored |
| ConfigFiles.DriveIsSound | src/config.rs:2150-2189 | from any sound state those commits end in one |
| ConfigFiles.AnUndisturbedEditIsWritten | src/config_edit.rs:53-148 | an edit that nothing disturbs, from its staging on, leaves the reconciled draft as the live file and what it replaced as the backup |
| ConfigFiles.AnUndisturbedTransactionIsWritten | src/config.rs:2064-2189 | so does a transaction, which keeps the backup when it asks for none |
| ConfigFiles.DraftsAreVetted | src/config_edit.rs:53-107 | in every run only a draft of at most 1 MiB that the format accepts, made of a file of at most 1 MiB, gets to the lock |
| ConfigFiles.TheLockIsExclusive | src/config.rs:1764-1817 | while anyone holds the lock, another that asks for it is turned away at once and changes nothing |
| Diagnostics.DropsAreConserved | src/diagnostics.rs:551-597 | over every interleaving of emitters, pending drops, drops carried in flight and drops told in accepted records equal the total and the emitters between their two increments, wraps accounted for |
| Diagnostics.QuiescentDropsAreExact | src/diagnostics.rs:551-597 | at quiescence before any wrap, pending and told drops are exactly the total |
| Diagnostics.SequenceNumbersAreDistinct | src/diagnostics.rs:561 | accepted records have different sequence numbers below wraparound |
| Diagnostics.CrumbsAreTheLast | src/diagnostics.rs:1019-1027 | the breadcrumb ring holds the last 64 records remembered, refused ones included |
| Diagnostics.ActiveDiagnostics.RetainBreadcrumb | src/diagnostics.rs:1019-1027 | the ring pops its oldest record when full and appends |
| Diagnostics.ActiveDiagnostics.Emit | src/diagnostics.rs:551-597 | one emission alone leaves the counters, ring and accepted records of the model's steps |
| Diagnostics.EmissionExactly | src/diagnostics.rs:551-597 | one emission by fields: the next number from one on, all pending drops, remembered among the last 64; accepted, or one drop more with the carried ones given back |
| LogSink.FileSink.Rotate | src/diagnostics.rs:981-1005 | a rotation closes the segment and opens an empty one, unless flushing or opening fails |
| LogSink.FileSink.WriteRecord | src/diagnostics.rs:970-979 | a write rotates first when the record would outgrow a non-empty segment; it appends the whole record, or what a failing write got out of it |
| LogSink.SegmentsHoldTheReported | src/diagnostics.rs:961-1005 | the whole records in the segments are exactly those whose write reported success, in order, whatever fails |
| LogSink.RecordsAreBounded | src/diagnostics.rs:970-1005 | the whole records of every segment are within the limit or one oversized record alone, and no rotation leaves a segment without one, whatever fails |
| LogSink.FilesAreTheReportedExactlyWhenNothingIsTorn | src/diagnostics.rs:961-1005 | the bytes of the files are the reported records and nothing else if and only if no failed write left a byte |
| LogSink.FilesFitExactlyWhenNothingIsTorn | src/diagnostics.rs:970-1005 | the size of the files is bounded by the limit or one record in every run whose failed writes leave at most n bytes each, if and only if n is zero |
| LogSink.AppendExactly | src/diagnostics.rs:970-979 | an append adds the whole record and counts it, or fails and adds a beginning of it that is not counted |
| LogSink.StayExactly | src/diagnostics.rs:961-979 | a write stays in its segment if that has nothing counted or the record fits |
| LogSink.RotateExactly | src/diagnostics.rs:961-1005 | any other write begins a new segment under the next number or fails with the rotation, and each of the failures leaves exactly what it had done |
| LogSink.RotatesOnlyWhenFull | src/diagnostics.rs:961-1005 | without faults no segment is closed before the next record would outgrow it |
| LogSink.FaultlessIsReported | src/diagnostics.rs:961-1005 | and every record is reported |
| Documents.ExtractCsv | src/documents.rs:153-195 | extraction is the bounded table of the rows, or the first of a malformed record, an exceeded cell limit and an exceeded output limit |
| Documents.RenderTable | src/documents.rs:176-193 | the growing string ends as the table of the rows |
| DocumentResults.ExtractionExactly | src/documents.rs:152-200 | extraction is malformed if and only if some record is and the cells before it fit, over the work limit if and only if well-formed records pass it first, and otherwise, within the output limit, parses back to exactly the rows, or is empty when there is no cell |
| DocumentResults.TooLongExactly | src/documents.rs:127-150 | when all is read it is over the output limit if and only if that is zero or the table has more bytes |
| Text.LengthIsOfTheEncoding | src/documents.rs:138 | the length the limits count is that of the UTF-8 encoding, which decodes to the text |
| DocumentTables.TableRoundTrip | src/documents.rs:152-200 | a reference parser recovers from the table of any rows with a cell exactly those rows with newlines as spaces, pipes, backslashes, ragged widths and an empty first row included |
| DocumentTables.UnescapeInverts | src/documents.rs:198-200 | dropping the backslash before every pipe undoes the escaping of a cell |
| DocumentTables.FlatExactly | src/documents.rs:198-200 | a table keeps every character of a cell in its place, but a space for a newline |
| DocumentTables.TablesAreInjective | src/documents.rs:152-200 | different rows without newlines have different tables |

## Left out

- Wall clocks, UUIDs, BLAKE3 and JSON: instants are numbers, fresh names and hash functions are parameters. The reconnect digest keeps its preimage; every other hash is an arbitrary function.
- Poisoned locks: every lock is taken to succeed.
- `src/desktop.rs` outside deferred delivery: launch, command routing, projections, attachments and settings drafts are plumbing over other modules.
- DeferredRuns.NoUnaccountedLoss: an update whose send failed because the receiver closed is lost with the queue, so the claim is made while the channel is open. Contents of updates are their kind and the number of the offer.
- DeferredQueue.SnapshotLosesUncarried: which kinds a Snapshot carries is read off its fields.
- ControllerLeasing.AcceptanceIsLatest: two equal digests are two equal capabilities; a collision of the hash is not modelled.
- CapabilityResolve.BuildCatalog: a catalog entry does not carry the provider's id, which only the duplicate report uses; ids are numbers ordered as their names are.
- CapabilityClosure.ClosedExactlyWhenChased: the exact condition for closure is stated without optional edges and with nothing deselected; with optional edges CapabilityProperties.AcyclicIsComplete is sufficient, not necessary.
- ArtifactStore.PublishedAreWholeForever: symbolic links, file identity checks, permissions, encrypted stores and writers outside the store are not modelled; a hash-named file is one whose bytes have the hash of its name, so equal lengths are compared but collisions are not excluded.
- ArtifactReader.ReadVerifiedRange: an I/O error may come at any read, and a file that outgrows the limit while it is read may be reported so; the contract names these outcomes; an I/O error only where a read of the file fails.
- CompletionEvidence.ReserveVerifier: the collection of checks, effects and artifacts from messages (`src/completion_evidence/collect.rs`) is not modelled; records are arbitrary.
- AgentTurn.Conversation.RunTurn: prompt refresh, usage reservation, telemetry and the progress guard's own rules, among them when memory recovery is needed, are answers of the environment; and a recovery that times out is one without an answer. Crash sites are the instants between steps.
- AgentTurnProperties.TranchesCompose: the later tranche is neither halted nor recovering at its start; this rests on the guard that is rebuilt from history (`src/agent/progress.rs:31-58`) repeating what the live guard of the earlier tranche observed.
- Usage.SessionUsage.Observe: the counters are values of the session object; their rendering is left out.
- ConfigWrites.NoLostUpdate: a file is replaced whole or not at all, and a writer that ignores the lock may change the files only while nobody holds it. TOML parsing, reconciliation and the rendering of documents are arbitrary functions; drafts are not removed.
- Diagnostics.ActiveDiagnostics.Emit: level and target filters, timestamps and sanitizing are left out; a record that does not encode and a full channel are one choice.
- Diagnostics.SequenceNumbersAreDistinct: acceptance order is not claimed to be sequence order; concurrent emitters can swap.
- LogSink.RecordsAreBounded: the limit is below `u64::MAX`, as the configuration's own bound of 64 MiB ensures. Retention of old segments is left out.
- Documents.ExtractCsv: reading CSV syntax belongs to the csv crate; records are given or malformed.
- Command syntax, tables, dispatch, keyring, network and browser modules: their pure parts are single-branch claims that would only add easy members.
- `src/context.rs`, `src/autonomy.rs`, `src/bounded_file.rs` and `src/config_migration.rs`: short invariants, or transitions in files outside this core.
