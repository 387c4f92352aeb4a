# NeonHearth core models

This project models the deterministic, bounded state machines at the heart of NeonHearth's Rust crates and proves what they keep over whole runs.
Each machine is given twice.
The first form is a set of functions on values, about which the properties are proved.
The second form is the imperative code: classes and loops that are proved to compute those functions.

| machine | files |
|---|---|
| flow rollups: event-time accounting with late corrections | `FlowModel`, `FlowLedger`, `FlowRuns`, `FlowHistory`, `FlowRecount`, `FlowExact`, `FlowCutSecond`, `FlowFeed`, `FlowEngine` |
| camera evidence: a streaming, keyed, bounded selection | `CameraOrder`, `CameraSelection`, `CameraDetection`, `CameraVerdict` |
| live bandwidth adapter: cached samples over current rows | `LiveModel`, `LiveSync`, `LiveRuns`, `LiveAdapter` |
| presence engine: device states, control flags, bounded history | `PresenceModel`, `PresenceHistory`, `PresenceControls`, `PresenceRuns`, `PresenceEngine` |
| identity engine: the merge graph and its audit trail | `IdentityGraph`, `IdentityModel`, `IdentityCoherence`, `IdentityRuns`, `IdentitySupply`, `IdentityCheckpoint`, `IdentityRestore`, `IdentityEngine` |
| probe scheduler: two lanes, round-robin hosts, token buckets | `ProbeQueue`, `ProbeFairness`, `ProbeAdmission`, `ProbeRates`, `ProbeShares`, `ProbeOverdraw`, `ProbeScheduler` |
| audit manifest: the canonical signed bytes | `Ordering`, `Manifest`, `ManifestInjective`, `ManifestEncoder` |
| audit budgets: reservations, and two meters in lockstep | `AuditBudget`, `AuditLockstep` |
| NVD configuration walk: an explicit stack | `NvdWalk`, `NvdBudget` |
| BER codec of the SNMP probe | `Bytes`, `Ber` |
| shared | `Wrappers`, `Naturals`, `Sets`, `Sequences`, `Accounting` |

A run is a sequence of operations of any length, with any arguments, from the state a constructor gives.
What the environment decides is an argument: clocks, deadlines, transports, device evidence, text checks.
Maps and sets are walked in an arbitrary order wherever the result does not depend on it, which is then part of what is proved.

Where the code and its documentation differ, the model follows the code.
The differences found are stated as lemmas, each with the exact condition under which the promise holds:

- The flow documentation promises that an expired replay id cannot be counted twice. That holds exactly when the replay time-to-live covers the lateness, the allowed future skew and one second, or the work limit is below five, so that no run accepts two observations at all (`FlowRuns.EventsAcceptedOnceIff`).
- Minute and hour rows always hold the finalised history and, once more for each, the seconds counted again after a watermark between whole seconds has retired their rows but kept them open (`FlowExact.ParentsCountedExactly`). They equal the history exactly when every such second was empty or has no live parent left (`FlowExact.RunExactIff`), which a caller can tell from the seconds an advance closes and the next two watermarks (`FlowExact.TwoAdvancesIff`). A run that breaks it is given (`FlowCutSecond.FractionalWatermarkCountsTwice`).
- A request refused with an eligible time is admitted at that time exactly when each bucket can ever hold its cost (`ProbeRates.DeadlineKeptIff`); one that is refused and never admitted is given (`ProbeRates.UnaffordableNeverStarts`).
- No run sends a host more than its burst and one per period exactly when the global burst is no larger than the host's, or the smaller of the host's and the network's bucket refills before it is dropped (`ProbeOverdraw.HostsBoundedIff`). For networks the network's bucket decides, and where only one bucket state is kept the smaller of the two again (`ProbeOverdraw.SubnetsBoundedIff`). The runs that overdraw are given (`ProbeOverdraw.OneHostOverdraws`, `ProbeOverdraw.TwoHostsOverdraw`).
- The walk over NVD nodes counts arrays as levels, so an empty child array below level 32 fails (`NvdBudget.WalkRootsIff`, `NvdBudget.EmptyArrayIsALevel`).
- BER values round-trip up to 16384 bytes and integers when they are not negative; outside those ranges they do not (`Ber.RoundTripIff`, `Ber.IntegerRoundTripIff`).
- The canonical manifest bytes cannot tell durations within one second apart, which only the whole-second check makes harmless (`ManifestInjective.CanonicalIff`, `ManifestInjective.HalfSecondCollides`).
- Evicted identifiers are promised never to be handed out again. That holds exactly when the identifiers the engine takes from its source hold none twice; enrolling refuses an identifier only while it is a known device (`IdentitySupply.NeverTwiceIff`).
- A checkpoint of any reachable state of the identity engine passes the modelled checks of restoring exactly when no identifier is left twice or left while it is a device, no proposal merges a device with itself, and every record passes its own checks (`IdentityRestore.RunRestorableIff`). The engine accepts a source that repeats an identifier (`IdentityRestore.RepeatedIdentifierRefused`) and a proposal that merges a device with itself (`IdentityRestore.SelfMergeAccepted`).

## Model

| member | source | states |
|---|---|---|
| FlowModel.SelectionUnique | crates/lattice-sensor/src/flow.rs:645-674 | the open rows determine the winning row of every closed second, whatever order they are walked in |
| FlowLedger.BucketTotalRevised | crates/lattice-sensor/src/flow.rs:706-755 | revising one second moves the true sum of its bucket by exactly new minus old |
| FlowLedger.AdjustParentExact | crates/lattice-sensor/src/flow.rs:706-755 | a parent equal to its bucket's true sum stays equal after subtract-old, add-new; the subtraction never fails, and an error means the true sum overflows |
| FlowLedger.ParentsOutlive | crates/lattice-sensor/src/flow.rs:756-766 | a minute or hour row never retires before a second row below it |
| FlowLedger.ReviseKeepsLedger | crates/lattice-sensor/src/flow.rs:506-529 | revising a second in the window keeps every live row equal to the history, or fails only because a true sum overflows |
| FlowLedger.ReviseAllKeepsLedger | crates/lattice-sensor/src/flow.rs:506-529 | the same for a whole walk over selected seconds in any order |
| FlowLedger.AdvanceKeepsLedger | crates/lattice-sensor/src/flow.rs:468-578 | a successful advance leaves rows that equal the enlarged history; an overflow error means a true bucket sum overflows |
| FlowLedger.AdvanceKeepsWindows | crates/lattice-sensor/src/flow.rs:562-578 | after an advance the open-row window and the retirement window agree if and only if no open row was cut |
| FlowLedger.AdvanceKeepsBooks | crates/lattice-sensor/src/flow.rs:468-578 | an advance leaves rows equal to the enlarged history together with open rows of unretired seconds only, if and only if it cuts no open row; what a cut does to the rows later is stated by FlowExact |
| FlowLedger.WholeSecondsNeverCut | crates/lattice-sensor/src/flow.rs:756-766 | whole-second advances never cut a row |
| FlowLedger.ObserveKeepsBooks | crates/lattice-sensor/src/flow.rs:339-466 | accepting an observation keeps the books |
| FlowRuns.RunKeepsBooks | crates/lattice-sensor/src/flow.rs:339-578 | every run of observations and whole-second advances keeps the books |
| FlowRuns.ParentsEqualHistory | crates/lattice-sensor/src/flow.rs:468-578 | after such a run each live minute and hour row is the sum over all seconds ever finalised in its bucket, and never claims more coverage than they had |
| FlowRuns.ReplayIdsSpaced | crates/lattice-sensor/src/flow.rs:352-402 | over any run, two acceptances of one replay id are more than the time-to-live apart |
| FlowRuns.LongTtlAcceptsOnce | crates/lattice-sensor/src/flow.rs:352-402 | with a long enough time-to-live no event is accepted twice in any run |
| FlowRuns.ShortTtlAcceptsTwice | crates/lattice-sensor/src/flow.rs:352-402 | with any shorter time-to-live a two-step run accepts one event twice |
| FlowRuns.TinyWorkAcceptsOne | crates/lattice-sensor/src/flow.rs:352-402 | with a work limit below five no run accepts two observations |
| FlowRuns.EventsAcceptedOnceIff | crates/lattice-sensor/src/flow.rs:352-402 | events are accepted once in every run if and only if the time-to-live is at least lateness, future skew and one second, or the work limit is below five |
| FlowHistory.RunExact | crates/lattice-sensor/src/flow.rs:339-578 | after any run each open per-source row is the sum of that source's accepted observations, and each closed second reported by the last advance is finalised |
| FlowHistory.FinalsAreAccepted | crates/lattice-sensor/src/flow.rs:645-674 | each finalised second holds exactly what the best source to report it had reported by the last advance |
| FlowRecount.ReviseTracks | crates/lattice-sensor/src/flow.rs:506-529 | revising an open second moves a row and its exact counterpart alike, whatever the row holds in excess |
| FlowRecount.RecountTracks | crates/lattice-sensor/src/flow.rs:506-529 | selecting a second whose row has retired adds its bytes to its live minute and hour once more, and nothing else |
| FlowRecount.WalkTracks | crates/lattice-sensor/src/flow.rs:506-529 | a whole walk leaves rows that exceed an exact ledger by the excess so far and by the retired seconds it selected |
| FlowExact.AdvanceCounted | crates/lattice-sensor/src/flow.rs:468-578 | an advance to any watermark adds exactly its recounts to what the rows hold beyond the history |
| FlowExact.RecountedZero | crates/lattice-sensor/src/flow.rs:506-529 | a row holds nothing beyond the history exactly when every recount into it was of no bytes |
| FlowExact.ParentsCountedExactly | crates/lattice-sensor/src/flow.rs:468-578 | after any run with any watermarks each live minute and hour row is the finalised history plus the recounts, at a coverage the history supports |
| FlowExact.RunExactIff | crates/lattice-sensor/src/flow.rs:468-578 | after any run the minute and hour rows equal the history if and only if every recount was of no bytes or into rows that have retired |
| FlowExact.TwoAdvancesIff | crates/lattice-sensor/src/flow.rs:562-578 | from kept books, an advance, any observations and a second advance leave the minute and hour rows equal to the history if and only if each second the first one cut was empty or has both parents retired at the second watermark |
| FlowCutSecond.FractionalWatermarkCountsTwice | crates/lattice-sensor/src/flow.rs:562-578 | a run with a watermark at 1.5 s ends with a minute of two bytes although one byte was finalised |
| FlowFeed.ChangesAreExact | crates/lattice-sensor/src/flow.rs:534-561 | applying the emitted changes to the old rows gives the new rows, and no change is idle |
| FlowFeed.AdvanceSettles | crates/lattice-sensor/src/flow.rs:468-578 | after an advance that cuts no open row every closed second with open rows is finalised at its best row |
| FlowFeed.RepeatedWatermarkEmitsNothing | crates/lattice-sensor/src/flow.rs:468-578 | repeating a watermark with nothing observed in between emits no change and alters no row |
| FlowEngine.SelectSeconds | crates/lattice-sensor/src/flow.rs:645-674 | one pass in any order finds the best row of every closed second |
| FlowEngine.ReviseSelected | crates/lattice-sensor/src/flow.rs:506-529 | the loop over selected seconds computes the walk, stopping at the first overflow |
| FlowEngine.Changes | crates/lattice-sensor/src/flow.rs:534-561 | the change list has exactly one entry per differing row, within the work limit |
| FlowEngine.Engine.constructor | crates/lattice-sensor/src/flow.rs:295-338 | a new engine is empty and well kept |
| FlowEngine.Engine.Create | crates/lattice-sensor/src/flow.rs:295-338 | an engine is created exactly for valid configurations and source lists |
| FlowEngine.Engine.Observe | crates/lattice-sensor/src/flow.rs:339-466 | the new state is that of the value model, and a refusal changes nothing |
| FlowEngine.Engine.AdvanceWatermark | crates/lattice-sensor/src/flow.rs:468-578 | the new rows, open rows and changes are those of the value model, and a refusal changes nothing |
| CameraOrder.BelowTotal | crates/lattice-camera/src/detection.rs:290-316 | the selection order is total and antisymmetric |
| CameraOrder.BelowTransitive | crates/lattice-camera/src/detection.rs:290-316 | the selection order is transitive |
| CameraSelection.PushKeepsTop | crates/lattice-camera/src/detection.rs:209-230 | adding a new key to a selection with room keeps it the best per-key maxima |
| CameraSelection.RaiseKeepsTop | crates/lattice-camera/src/detection.rs:209-230 | replacing a key by higher-ranked evidence keeps it so |
| CameraSelection.RepeatKeepsTop | crates/lattice-camera/src/detection.rs:209-230 | ignoring a repetition that does not rank higher keeps it so |
| CameraSelection.EvictKeepsTop | crates/lattice-camera/src/detection.rs:209-230 | replacing the worst of a full selection by a better new key keeps it so |
| CameraSelection.SkipKeepsTop | crates/lattice-camera/src/detection.rs:209-230 | dropping a new key that does not beat the worst keeps it so |
| CameraSelection.TopUnique | crates/lattice-camera/src/detection.rs:209-230 | the inputs alone determine the selection |
| CameraDetection.SelectEvidence | crates/lattice-camera/src/detection.rs:208-230 | the one-pass loop ends with exactly the 64 best per-key maxima of the unexpired inputs |
| CameraDetection.SortByKey | crates/lattice-camera/src/detection.rs:231 | the evidence is published in key order with nothing lost or added |
| CameraDetection.ClassifyCandidate | crates/lattice-camera/src/detection.rs:203-288 | evidence, class and score are those of the selection |
| CameraVerdict.VerdictIgnoresOrder | crates/lattice-camera/src/detection.rs:203-288 | permuting or repeating inputs changes nothing in the result |
| CameraVerdict.ContradictionAlwaysWins | crates/lattice-camera/src/detection.rs:203-288 | an unexpired contradiction anywhere in the input is retained and forces Unknown |
| CameraVerdict.ConfidentProfileDecides | crates/lattice-camera/src/detection.rs:232-288 | without contradiction a confident profile makes a camera, at the best such confidence in the input |
| CameraVerdict.ScoreInRange | crates/lattice-camera/src/detection.rs:232-288 | every score is a valid confidence |
| CameraVerdict.OneFamilyIsWeak | crates/lattice-camera/src/detection.rs:232-288 | evidence of one family alone, without a profile of confidence 0.8, never makes a camera and scores at most 0.35 |
| LiveSync.FoldQuiet | crates/lattice-sensor/src/live.rs:203-240 | a batch without traffic only removes rows, with their baselines, and notes whose they were |
| LiveSync.ResetKeepsDeltas | crates/lattice-sensor/src/live.rs:300-330 | lowering a baseline to its row changes no unreported amount |
| LiveSync.ApplyKeepsSynced | crates/lattice-sensor/src/live.rs:193-265 | after any applied batch the pending samples and baselines equal a fresh computation from the rows |
| LiveSync.FlushReportsAll | crates/lattice-sensor/src/live.rs:266-278 | after a frame every current row is reported, its baseline equal to its bytes |
| LiveSync.FlushKeepsSynced | crates/lattice-sensor/src/live.rs:266-278 | a frame leaves the caches equal to a fresh computation |
| LiveRuns.RunIsSound | crates/lattice-sensor/src/live.rs:187-278 | after any run the caches are fresh, each row has reported its baseline plus what corrections took back, and frames keep their distance |
| LiveRuns.FrameSettlesAccounts | crates/lattice-sensor/src/live.rs:266-278 | after a frame a row's lifetime reports equal its bytes plus what corrections took back |
| LiveRuns.NeverLowered | crates/lattice-sensor/src/live.rs:187-278 | in any run the baseline of a row whose bytes never fall is never lowered |
| LiveRuns.FrameReportsBytes | crates/lattice-sensor/src/live.rs:266-278 | after a frame a row whose bytes never fell has reported exactly its bytes over its life, none of them twice |
| LiveRuns.FrameReportsDeltas | crates/lattice-sensor/src/live.rs:104-156 | a frame reports each device the sum of what its rows had not reported |
| LiveAdapter.SamplesForCurrent | crates/lattice-sensor/src/live.rs:300-364 | one pass in any order samples every device and lowers baselines, or fails exactly when a device's sum overflows |
| LiveAdapter.Replace | crates/lattice-sensor/src/live.rs:73-94 | inserting samples one by one fails exactly when the merged set is over a limit |
| LiveAdapter.SyncDevices | crates/lattice-sensor/src/live.rs:95-103 | each given device's pending sample is replaced or dropped, others stay |
| LiveAdapter.ApplyInner | crates/lattice-sensor/src/live.rs:193-265 | the staged batch computes the value model, with its samples |
| LiveAdapter.FlushInner | crates/lattice-sensor/src/live.rs:104-156 | a flush is refused, idle or emits exactly the pending samples, as the value model says |
| LiveAdapter.Adapter.constructor | crates/lattice-sensor/src/live.rs:175-186 | a new adapter is empty and in sync |
| LiveAdapter.Adapter.Create | crates/lattice-sensor/src/live.rs:175-186 | an adapter is created exactly for valid configurations |
| LiveAdapter.Adapter.ApplyBatch | crates/lattice-sensor/src/live.rs:187-192 | a batch is applied whole or not at all, and the caches stay in sync |
| LiveAdapter.Adapter.FlushPayload | crates/lattice-sensor/src/live.rs:266-278 | the frame and the new state are those of the value model, and the caches stay in sync |
| PresenceHistory.PushKeeps | crates/lattice-intelligence/src/presence.rs:1095-1111 | the history stays the newest part of all transitions made, within its bound, with the newest evicted one on record |
| PresenceHistory.EventsSinceExact | crates/lattice-intelligence/src/presence.rs:500-516 | replay from a cursor gives exactly the later transitions, or expires exactly when one of them was evicted |
| PresenceHistory.IdsIncrease | crates/lattice-intelligence/src/presence.rs:733-762 | transition ids of a device strictly increase and stay below the next one |
| PresenceHistory.GatedConfirmed | crates/lattice-intelligence/src/presence.rs:696-732 | every change to Online or Quiet from Unknown or Offline has the join confirmations, and every change to Offline the departure confirmations |
| PresenceHistory.RecomputeRecorded | crates/lattice-intelligence/src/presence.rs:696-732 | recomputing extends the loop-free path of states by at most one confirmed step |
| PresenceHistory.CorrectionIsCorrective | crates/lattice-intelligence/src/presence.rs:604-668 | a correction names an earlier departure of the device within the correction window |
| PresenceHistory.ObserveRecorded | crates/lattice-intelligence/src/presence.rs:559-677 | an observation keeps path, confirmations, corrections, ids and the retained history within its bound |
| PresenceControls.FlagUnique | crates/lattice-intelligence/src/presence.rs:921-940 | the records alone decide a control flag |
| PresenceControls.GreatestDecides | crates/lattice-intelligence/src/presence.rs:921-940 | the lexicographically greatest record of a family decides its flag |
| PresenceControls.ApplyFlagsDecides | crates/lattice-intelligence/src/presence.rs:808-887 | applying a record that is not stale gives the flag of the enlarged record set |
| PresenceControls.DecidedPruned | crates/lattice-intelligence/src/presence.rs:963-974 | pruning control evidence leaves every flag decided as before |
| PresenceControls.ObserveControlled | crates/lattice-intelligence/src/presence.rs:559-732 | after an observation the flags are those of everything ingested and of the evidence retained, and Blocked means the enforcement flag |
| PresenceControls.RedundantControlled | crates/lattice-intelligence/src/presence.rs:849-887 | ignoring a stale or repeated record keeps the flags right for the enlarged record set |
| PresenceRuns.RunSound | crates/lattice-intelligence/src/presence.rs:559-762 | all of the above in every state any run of any devices reaches |
| PresenceRuns.BlockedIffGreatest | crates/lattice-intelligence/src/presence.rs:559-732 | after any run a device is Blocked exactly when its greatest enforcement record is a block |
| PresenceRuns.NeverEnforcedNeverBlocked | crates/lattice-intelligence/src/presence.rs:975-978 | a device without enforcement records is never Blocked |
| PresenceRuns.FlagsConverge | crates/lattice-intelligence/src/presence.rs:808-887 | two runs that ingested the same control records end with the same flag, in whatever order |
| PresenceRuns.ReplayExact | crates/lattice-intelligence/src/presence.rs:500-516 | cursor replay is exact after any run |
| PresenceEngine.ControlState | crates/lattice-intelligence/src/presence.rs:921-940 | the loop finds the flag the records decide |
| PresenceEngine.PruneControlEvidence | crates/lattice-intelligence/src/presence.rs:963-974 | three passes keep exactly the records of each family's latest instant |
| PresenceEngine.PushTransition | crates/lattice-intelligence/src/presence.rs:1095-1111 | the eviction loops compute the bounded history |
| PresenceEngine.EventsAfter | crates/lattice-intelligence/src/presence.rs:500-516 | the filter loop computes the replay |
| PresenceEngine.PresenceTracker.Create | crates/lattice-intelligence/src/presence.rs:464-477 | an engine is created exactly for valid configurations and a non-zero first id |
| PresenceEngine.PresenceTracker.RecomputeDevice | crates/lattice-intelligence/src/presence.rs:696-732 | the device moves to its gated state with at most one transition |
| PresenceEngine.PresenceTracker.IngestAuthorized | crates/lattice-intelligence/src/presence.rs:559-677 | ingestion gives the state and events of the value model, a failure changes nothing, and the counter never overflows |
| PresenceEngine.PresenceTracker.EvaluateDevice | crates/lattice-intelligence/src/presence.rs:678-695 | evaluation gives the state and events of the value model, and a failure changes nothing |
| PresenceEngine.PresenceTracker.DomainEventsSince | crates/lattice-intelligence/src/presence.rs:500-516 | the replay of a known device, or device not found |
| IdentityGraph.SameRootIff | crates/lattice-intelligence/src/lib.rs:632-634 | two devices have one least member exactly when they are connected |
| IdentityGraph.RootIdempotent | crates/lattice-intelligence/src/lib.rs:632-634 | the root of a root is itself |
| IdentityGraph.AddEdge | crates/lattice-intelligence/src/lib.rs:932-940 | a new active edge connects exactly the two classes of its ends |
| IdentityGraph.WithoutKeeps | crates/lattice-intelligence/src/lib.rs:616-620 | removing whole classes with their edges leaves every other class as it was |
| IdentityCoherence.AdjacentIffAccepted | crates/lattice-intelligence/src/lib.rs:916-969 | two devices are adjacent exactly when an accepted proposal names them |
| IdentityCoherence.ClassKnown | crates/lattice-intelligence/src/lib.rs:635-663 | a class never leaves the known devices |
| IdentityCoherence.InsertedCoherent | crates/lattice-intelligence/src/lib.rs:886-909 | inserting a proposal keeps ids, audit, edges and devices in agreement |
| IdentityCoherence.DecideCoherent | crates/lattice-intelligence/src/lib.rs:916-949 | deciding keeps the audit the one history each status can have, and the edges those of the accepted proposals |
| IdentityCoherence.UndoCoherent | crates/lattice-intelligence/src/lib.rs:950-969 | undoing keeps the same |
| IdentityRuns.GoneSevered | crates/lattice-intelligence/src/lib.rs:599-613 | what is evicted are whole classes |
| IdentityRuns.EvictedCoherent | crates/lattice-intelligence/src/lib.rs:614-630 | eviction leaves no dangling edge, proposal, audit record or owner |
| IdentityRuns.RunCoherent | crates/lattice-intelligence/src/lib.rs:445-969 | the agreement holds in every state any run reaches |
| IdentityRuns.ResolveClasses | crates/lattice-intelligence/src/lib.rs:632-663 | within the work bound resolving is idempotent, and equal exactly on connected devices |
| IdentityRuns.AcceptJoins | crates/lattice-intelligence/src/lib.rs:916-949 | accepting joins exactly the classes of the two devices |
| IdentityRuns.AcceptUndoRestores | crates/lattice-intelligence/src/lib.rs:916-969 | accepting and then undoing restores what every device resolves to |
| IdentityRuns.AcceptedDetermineClasses | crates/lattice-intelligence/src/lib.rs:916-969 | states with the same accepted merges have the same classes, whatever led to them |
| IdentityRuns.EvictionKeepsSurvivors | crates/lattice-intelligence/src/lib.rs:591-631 | every surviving device keeps its class and its root |
| IdentitySupply.RunHands | crates/lattice-intelligence/src/lib.rs:409-509 | in any run what was handed out and what is left make up the identifiers taken from the source, and only what was handed out is a device |
| IdentitySupply.ApartIff | crates/lattice-intelligence/src/lib.rs:409-509 | identifiers left and devices stay apart in every run if and only if the identifiers taken from the source hold none twice |
| IdentitySupply.NeverTwiceIff | crates/lattice-intelligence/src/lib.rs:585-631 | no run hands out an identifier twice, evicted or not, if and only if the identifiers taken from the source hold none twice |
| IdentityCheckpoint.CheckAudit | crates/lattice-intelligence/src/lib.rs:337-369 | the chronology check passes exactly when the audit holds each proposal's one possible history |
| IdentityCheckpoint.CheckOwners | crates/lattice-intelligence/src/lib.rs:314-336 | the owner records pass exactly when they are numbered upwards below the next number, name known devices and pass their own checks |
| IdentityCheckpoint.CheckEdges | crates/lattice-intelligence/src/lib.rs:370-396 | the edge checks pass exactly when edges mirror accepted and undone proposals |
| IdentityCheckpoint.FromCheckpoint | crates/lattice-intelligence/src/lib.rs:228-408 | the checks on configuration, capacity, identifiers, stored facts, proposals, edges, owners and audit pass exactly for checkpoints within capacity that list nothing twice, agree in all parts, merge no device with itself and whose records pass their own checks; the state restored is the one listed |
| IdentityRestore.RunBounded | crates/lattice-intelligence/src/lib.rs:445-969 | every reachable state keeps the limits restoring asks for, devices and identifiers left together staying within the limit on devices |
| IdentityRestore.ListEdges | crates/lattice-intelligence/src/lib.rs:202-227 | every set of edges can be listed, so every state has a checkpoint |
| IdentityRestore.RunRestorableIff | crates/lattice-intelligence/src/lib.rs:202-408 | for every identifier source, run and listing of its state, the checkpoint is restored to that state if and only if identifiers and devices are apart, no proposal merges a device with itself and every record passes its own checks |
| IdentityRestore.SupplyRestorableIff | crates/lattice-intelligence/src/lib.rs:202-408 | where the identifiers taken from the source hold none twice, only self-merges and the records' own checks decide |
| IdentityRestore.RepeatedIdentifierRefused | crates/lattice-intelligence/src/lib.rs:228-253 | an engine whose source repeats an identifier is accepted, and no checkpoint of it is restored |
| IdentityRestore.SelfMergeAccepted | crates/lattice-intelligence/src/lib.rs:860-909 | the engine accepts a proposal to merge a device with itself, and no checkpoint of that state is restored |
| IdentityEngine.Component | crates/lattice-intelligence/src/lib.rs:635-663 | the worklist ends with exactly the devices connected to the start |
| IdentityEngine.Components | crates/lattice-intelligence/src/lib.rs:664-680 | the classes of all devices, each once and disjoint |
| IdentityEngine.StaleDevices | crates/lattice-intelligence/src/lib.rs:599-613 | exactly the devices whose whole class is stale, unannotated and without pending proposals |
| IdentityEngine.Engine.Create | crates/lattice-intelligence/src/lib.rs:409-427 | an engine is created exactly for non-zero limits, with as many identifiers as there may be devices |
| IdentityEngine.Engine.ResolveDevice | crates/lattice-intelligence/src/lib.rs:632-663 | the least connected device, or the refusal of the work bound |
| IdentityEngine.Engine.EnrolDevice | crates/lattice-intelligence/src/lib.rs:445-509 | the value model's new state, kept coherent, with the next identifier handed out or a failure changing nothing |
| IdentityEngine.Engine.ProposeMerge | crates/lattice-intelligence/src/lib.rs:860-909 | the value model's new state, kept coherent, with a failure changing nothing |
| IdentityEngine.Engine.DecideMerge | crates/lattice-intelligence/src/lib.rs:916-949 | the same for a decision |
| IdentityEngine.Engine.UndoMerge | crates/lattice-intelligence/src/lib.rs:950-969 | the same for an undo |
| IdentityEngine.Engine.EvictStale | crates/lattice-intelligence/src/lib.rs:591-631 | the same for an eviction, which removes exactly the stale classes |
| ProbeQueue.EnqueueKeeps | crates/lattice-sensor/src/active.rs:2101-2129 | enqueueing keeps the index equal to the lanes and each non-empty host listed once |
| ProbeQueue.NextKeeps | crates/lattice-sensor/src/active.rs:2130-2163 | dequeueing keeps the same, and finds nothing exactly when stopped or empty |
| ProbeFairness.RunWellQueued | crates/lattice-sensor/src/active.rs:2101-2173 | every reachable state is so kept |
| ProbeFairness.LowServedWithin33 | crates/lattice-sensor/src/active.rs:2130-2163 | in any run waiting low work is served within 33 consecutive successful dequeues |
| ProbeFairness.HostsTakeTurns | crates/lattice-sensor/src/active.rs:2130-2163 | between two turns of one host every other host that was queued has had a turn, so a host that stays queued sees each other host served at most once between its own turns |
| ProbeRates.CreditedGains | crates/lattice-sensor/src/active.rs:2039-2053 | after n periods a bucket holds n more tokens or is full |
| ProbeRates.CreditedBounded | crates/lattice-sensor/src/active.rs:2039-2053 | crediting keeps tokens plus spending within the burst and the credited periods, also when elapsed periods are clamped |
| ProbeRates.AdmittedBounded | crates/lattice-sensor/src/active.rs:2191-2258 | in any run the cost admitted is at most the burst and one per whole period since the start |
| ProbeRates.DeadlineKeptIff | crates/lattice-sensor/src/active.rs:2191-2258 | a request refused for tokens is admitted when repeated at or after its eligible time, with or without evictions, exactly when its cost fits all three capacities |
| ProbeRates.DeadlinesKept | crates/lattice-sensor/src/active.rs:2191-2258 | the same in every reachable state |
| ProbeRates.UnaffordableNeverStarts | crates/lattice-sensor/src/active.rs:2191-2258 | a new scheduler gives a request costing one more than a host can hold a time to come back at, and never admits it |
| ProbeShares.HostBounded | crates/lattice-sensor/src/active.rs:2191-2258 | when a host bucket refills before it is dropped, in any run no host is sent more than its burst and one per whole period |
| ProbeShares.SubnetBounded | crates/lattice-sensor/src/active.rs:2191-2258 | the same for networks |
| ProbeShares.SharesNest | crates/lattice-sensor/src/active.rs:2191-2258 | what a host is sent its network is sent, and what a network is sent is admitted at all |
| ProbeShares.SoleBounded | crates/lattice-sensor/src/active.rs:2191-2225 | where one bucket state is kept, host buckets that refill before they are dropped bound networks in any run |
| ProbeOverdraw.OneHostOverdraws | crates/lattice-sensor/src/active.rs:2301-2309 | when the smaller of the two buckets does not refill before it is dropped, a host that empties it over and over is sent one token more than any given bound, from that bucket up to below the global burst, and one per period |
| ProbeOverdraw.TwoHostsOverdraw | crates/lattice-sensor/src/active.rs:2301-2309 | when the network bucket does not refill before it is dropped, two hosts that drain it slowly, wait and drain it again are sent one token too many together |
| ProbeOverdraw.HostsBoundedIff | crates/lattice-sensor/src/active.rs:2191-2258 | for every valid budget, hosts are bounded in every run if and only if the global burst is no larger than the host burst or the smaller of the two buckets refills before it is dropped |
| ProbeOverdraw.SubnetsBoundedIff | crates/lattice-sensor/src/active.rs:2191-2258 | for every valid budget, networks are bounded in every run if and only if the global burst is no larger than the network burst or the deciding bucket refills before it is dropped: the network bucket, or the smaller of the two where one state is kept |
| ProbeScheduler.RetainFresh | crates/lattice-sensor/src/active.rs:2301-2309 | exactly the buckets used within the time-to-live are kept |
| ProbeScheduler.NextExpiry | crates/lattice-sensor/src/active.rs:2197-2216 | the earliest expiry among the buckets |
| ProbeScheduler.Scheduler.Create | crates/lattice-sensor/src/active.rs:2055-2100 | a scheduler is created, empty and with a full global bucket, exactly for the settings the source accepts |
| ProbeScheduler.Scheduler.Enqueue | crates/lattice-sensor/src/active.rs:2101-2129 | the lanes are those of the value model and stay well kept |
| ProbeScheduler.Scheduler.NextRequest | crates/lattice-sensor/src/active.rs:2130-2163 | the same for a dequeue, with the request it serves |
| ProbeScheduler.Scheduler.Stop | crates/lattice-sensor/src/active.rs:2167-2173 | the lanes are emptied and admission stops |
| ProbeScheduler.Scheduler.AdmissionDecision | crates/lattice-sensor/src/active.rs:2182-2258 | the decision and the new buckets are those of the value model |
| ProbeScheduler.Scheduler.FinishProbe | crates/lattice-sensor/src/active.rs:2259-2267 | the concurrency counts drop by one, never below zero |
| Ordering.Ascending | crates/lattice-audit-wasm/src/manifest.rs:487 | a set is listed whole, each element once |
| Ordering.AscendingSorted | crates/lattice-audit-wasm/src/manifest.rs:487 | the listing ascends strictly |
| ManifestInjective.CanonicalIff | crates/lattice-audit-wasm/src/manifest.rs:477-530 | canonical bytes are equal exactly when the manifests agree in all but the signature and a fraction of a second |
| ManifestInjective.AcceptedInjective | crates/lattice-audit-wasm/src/manifest.rs:394-473 | accepted manifests with equal bytes differ in their signatures at most |
| ManifestInjective.HalfSecondCollides | crates/lattice-audit-wasm/src/manifest.rs:20-32 | without the whole-second check two different manifests would share their bytes |
| ManifestEncoder.PutCapabilities | crates/lattice-audit-wasm/src/manifest.rs:487-502 | appends the capabilities in order |
| ManifestEncoder.PutFields | crates/lattice-audit-wasm/src/manifest.rs:515-523 | appends the evidence fields in key order |
| ManifestEncoder.CanonicalUnsigned | crates/lattice-audit-wasm/src/manifest.rs:477-530 | the buffer ends as the canonical form |
| AuditBudget.NothingClips | crates/lattice-audit-wasm/src/broker.rs:99-110 | giving back an open reservation never clips a counter |
| AuditBudget.RunBalanced | crates/lattice-audit-wasm/src/broker.rs:66-152 | under any interleaving bytes equal charges, commits and open reservations, requests equal commits and open reservations, both within the limits |
| AuditBudget.QuiescentBudget | crates/lattice-audit-wasm/src/broker.rs:66-152 | with every reservation closed only charges and commits remain |
| AuditBudget.SharedBudget.ReserveBytes | crates/lattice-audit-wasm/src/broker.rs:66-98 | a reservation is taken whole or refused, and the balance holds |
| AuditBudget.SharedBudget.ReleaseHold | crates/lattice-audit-wasm/src/broker.rs:103-110 | a dropped reservation is given back exactly |
| AuditBudget.SharedBudget.CommitHold | crates/lattice-audit-wasm/src/broker.rs:136-152 | a commit keeps request and actual response, and an oversized one gives everything back |
| AuditBudget.SharedBudget.ChargeBytes | crates/lattice-audit-wasm/src/broker.rs:111-128 | a charge is taken or refused, and the balance holds |
| AuditLockstep.RunInStep | crates/lattice-audit-wasm/src/runtime.rs:356-443 | while a guest runs the sandbox byte count equals the broker's and its request count is at least the broker's |
| AuditLockstep.BrokerHonoursSandbox | crates/lattice-audit-wasm/src/broker.rs:394-451 | in every run an exchange the sandbox accepts is never refused by the broker's budget, deadlines aside |
| AuditLockstep.RefundNeverUnderflows | crates/lattice-audit-wasm/src/runtime.rs:411-443 | in every run the unused capacity handed back is covered, and both meters end up equal |
| AuditLockstep.OutputHonoured | crates/lattice-audit-wasm/src/runtime.rs:474-481 | in every run the broker can charge the final output exactly when the sandbox let it pass |
| AuditLockstep.StoreState.CallDeterministic | crates/lattice-audit-wasm/src/runtime.rs:353-368 | one request is counted, or the limit noted |
| AuditLockstep.StoreState.TakeExchange | crates/lattice-audit-wasm/src/runtime.rs:411-432 | request and capacity are counted, or the failure noted and nothing else changed |
| AuditLockstep.StoreState.SettleExchange | crates/lattice-audit-wasm/src/runtime.rs:433-443 | unused capacity is handed back, or the failure noted |
| NvdWalk.PushedStack | crates/lattice-advisory/src/nvd.rs:200-214 | pushing an array in reverse walks it before what was on the stack |
| NvdWalk.PushNodes | crates/lattice-advisory/src/nvd.rs:200-214 | the array is entered within depth and node budget and lies on the stack in reverse |
| NvdWalk.VisitNodesIterative | crates/lattice-advisory/src/nvd.rs:167-199 | the explicit stack computes the recursive walk, failures included, and terminates |
| NvdBudget.MatchesVisited | crates/lattice-advisory/src/nvd.rs:182-188 | the matches not marked invulnerable are visited in order while the visitor accepts |
| NvdBudget.WalkAllIff | crates/lattice-advisory/src/nvd.rs:167-199 | an entered array is walked to its end exactly when well formed, within levels and nodes, and accepted |
| NvdBudget.WalkRootsIff | crates/lattice-advisory/src/nvd.rs:167-214 | the whole walk succeeds under exactly those conditions, has then visited the pre-order and counted every node |
| NvdBudget.SizeIsAll | crates/lattice-advisory/src/nvd.rs:200-214 | the nodes counted are the nodes of the tree |
| NvdBudget.EmptyArrayIsALevel | crates/lattice-advisory/src/nvd.rs:189-208 | 32 nested nodes pass, and fail as oversized once the innermost lists an empty array of children |
| Bytes.NumberInverse | crates/lattice-sensor/src/active.rs:1527-1535 | a number that fits its width is spelled without loss |
| Ber.Tlv | crates/lattice-sensor/src/active.rs:1536-1559 | header, limits, value and rest are those of the decoding function |
| Ber.Integer | crates/lattice-sensor/src/active.rs:1560-1570 | the loop spells the decoded integer, within its limits |
| Ber.RoundTripIff | crates/lattice-sensor/src/active.rs:1517-1559 | decoding an encoding returns value and suffix exactly when the value has at most 16384 bytes |
| Ber.IntegerRoundTripIff | crates/lattice-sensor/src/active.rs:1527-1570 | an encoded integer decodes to itself exactly when it is not negative |

## Left out

- Flow: destination metadata normalisation is an argument of an observation, and calendar range limits and machine-size overflow of counters are not modelled.
- Flow: the cached set of active devices is computed from the open rows and replay entries instead of being stored.
- Flow snapshots and the default configurations, which would only add easy members.
- Camera: construction and normalisation of single evidence items, and floating-point rounding; confidences are real numbers.
- Live: device identifiers are their text, and tick values are unbounded integers.
- Presence: checkpoints, the order in which retained evidence is stored, and calendar overflow of times.
- Presence: the order of evidence is not observable in any modelled result, so evidence is a set.
- Identity: evidence matching, fact storage and identification; which devices are stale and which classes a new device matches are arguments.
- IdentityCheckpoint.FromCheckpoint: of the stored facts only their number is modelled; whether each fact, each proposal's score, families and reasons, and each owner record's key and value are valid are arguments.
- Identity: confidence thresholds of the configuration.
- Identity: device identifiers are numbers standing for their canonical text order, and the graph work product is not saturated at the machine size.
- Scheduler: retry back-off, jitter and failure counts; durations do not saturate, and the count of high admissions is unbounded.
- Scheduler: the eligible time returned when bucket state is full is not promised to be admitted.
- Manifest: the meaning of the text checks (trimmed, non-empty, no control characters) is an argument; signatures and hashes are opaque.
- Budgets: the lock itself; each call is one atomic step.
- Sandbox: the guest's memory, fuel and time limits, and everything inside the runtime library.
- NVD: parsing, severities and advisory construction; the visitor is any function of what it was shown.
- BER: the SNMP message built from these parts.
- Sockets, transports, parsers for captures and XML, policy evaluation, diagnosis, advisory matching, the event bus, the launcher, service routes and the user interface.
