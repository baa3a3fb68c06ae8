# hashring-rs: a verified model

hashring-rs is a replicated key-value cache on a consistent-hash ring. One durable coordinator owns the topology: which
nodes are members, which node owns each token, which nodes follow it. Data nodes hold records and deduplication receipts,
stream writes to followers and move ranges between each other when the topology changes; clients route by a cached
topology and refresh it in the background.

This project models that behaviour in Dafny and proves what it is built for: that placement and plans are exact on every
ring, that the coordinator's stored states obey its rules in every history, that failures, recoveries and merges are
published only when it is safe in every interleaving, that what they wait for can always be reached, that scans and range transfers are exact while the cluster changes,
and that the node-side stores and streams are equal to their plain specifications. `dafny verify dfyconfig.toml` checks it.

## Layout

| file | what it is about |
|---|---|
| `Ring.dfy`, `Topology.dfy`, `Canonical.dfy`, `Placement.dfy`, `Ranges.dfy` | tokens, intervals and partitions; building and validating a topology; owner lookup and the replica walk; what removal and addition do to placement; derived ranges |
| `MigrationPlan.dfy` | the delta between two rings |
| `Cluster.dfy`, `Removal.dfy`, `Merge.dfy` | the coordinator's state and its replica tasks; the proofs it demands before a removal; direct merges |
| `MergeRun.dfy`, `Epochs.dfy`, `MergeProgress.dfy` | the data plane within one epoch; over any number of them; that a merge which can be proved can be published |
| `Coordinator.dfy`, `Storable.dfy`, `Effects.dfy` | the durable state machine and its histories; that the guard refuses no lawful write; what its conditions and steps amount to |
| `Leases.dfy`, `LeaseTerms.dfy`, `Failure.dfy`, `Outages.dfy`, `Renewal.dfy` | lease safety across restarts; what a current lease means in grants and time; confirming a failure; outages during a change; the answer to a renewal |
| `Writability.dfy`, `Acknowledgement.dfy` | the writability report and the readiness barrier; whom a write waits for, and what a merge and a configuration leave able to acknowledge |
| `Service.dfy` | the coordinator as an object |
| `Keyspace.dfy`, `Scan.dfy`, `Walk.dfy` | key pages; scans; walks over the whole key set |
| `Records.dfy`, `Transfer.dfy`, `TransferProgress.dfy` | record versions and merging; moving a range; that a transfer can always be finished |
| `Replication.dfy`, `FollowerStream.dfy` | the owner's streams and their delivery; the follower's side and both together |
| `Dedup.dfy`, `Journey.dfy`, `Lifetimes.dfy` | deduplication receipts; one migration of them; all nodes' receipts over whole runs and what a retry finds |
| `Refresh.dfy`, `RefreshProgress.dfy` | the client's background refresh; that it comes to rest |
| `Runs.dfy` | induction along a run |
| `History.dfy`, `Verdicts.dfy`, `OperationMix.dfy` | the fault run's key model; what its verdicts mean; its operation mix |

Code that computes a value is modelled by functions; code that updates things step by step by methods and classes proved
against such functions. Protocols are state machines: a run is a sequence of states, each step is one locked region or
one atomic operation, and answers of other processes are arbitrary. Hash functions are parameters, so every statement
holds for every hash; in particular tokens may collide. Node ids are numbered by their rank in byte order, with 0 for the
empty id; process instances, digests and change ids are numbers with 0 for the empty string. Clocks are parameters.

## Model

| member | source | states |
|---|---|---|
| `Ring.SlotIsTheOnlyPiece` | crates/hashring-coordinator/src/removal.rs:9-17 | the intervals between the boundaries of any partition tile the ring: a token lies in piece i exactly if i is its slot, wrapping and single-boundary partitions included |
| `Ring.SlotThroughFinerPartition` | crates/hashring-core/src/migration.rs:204-269 | a token and the end of its piece in a finer partition always share their piece of a coarser one |
| `Topology.NewWithTimings` | crates/hashring-core/src/topology.rs:253-306 | construction by nested loops over members and virtual nodes gives the canonical snapshot, or the first fault in the order of the checks |
| `Topology.SortedAssignments` | crates/hashring-core/src/topology.rs:266-288 | assignments end up ordered by token, then node id, as many as before |
| `Topology.SortIsPermutation` | crates/hashring-core/src/topology.rs:266-288 | ordering the assignments adds none and loses none |
| `Topology.PartitionPoint` | crates/hashring-core/src/topology.rs:353-362 | binary search finds the number of assignments below the token, on any sorted assignments, equal tokens included |
| `Topology.OwnerForToken` | crates/hashring-core/src/topology.rs:353-362 | on any ring with assignments, the member found is the token's owner, and there is an error exactly if the owner is no member |
| `Topology.OwnerIsFirstClockwise` | crates/hashring-core/src/topology.rs:353-362 | the directly indexed owner is the head of the clockwise order |
| `Topology.ReplicaNodeIds` | crates/hashring-core/src/topology.rs:372-393 | the index-arithmetic walk with its seen-set returns the first min(RF, members) distinct nodes clockwise |
| `Topology.OwnerLeadsPreference` | crates/hashring-core/src/topology.rs:372-393 | the owner leads the preference order of every token |
| `Canonical.BuildIsValid` | crates/hashring-core/src/topology.rs:253-343 | whatever construction returns passes validation |
| `Canonical.ValidIsCanonical` | crates/hashring-core/src/topology.rs:308-343 | a snapshot is valid if and only if constructing it from its own fields gives it back |
| `Placement.PreferenceListsMembers` | crates/hashring-core/src/topology.rs:372-393 | the preference order of every token lists every member exactly once |
| `Placement.ReplicaCount` | crates/hashring-core/src/topology.rs:372-393 | every token has exactly min(RF, members) distinct replicas, its owner first |
| `Placement.RemovalFiltersAssignments` | crates/hashring-core/src/topology.rs:266-288 | removing members deletes exactly their assignments and reorders nothing, ties included |
| `Placement.RemovalFiltersPreference` | crates/hashring-core/src/topology.rs:353-393 | after removing any proper subset of members, each token's preference order is the old one with those members filtered out |
| `Placement.RemovalFiltersReplicas` | crates/hashring-core/src/topology.rs:372-393 | each token's new replica list is the filtered old preference order cut to min(RF, members) |
| `Placement.FirstSurvivorOwns` | crates/hashring-core/src/topology.rs:353-393 | the first surviving node of the old order is the new owner |
| `Placement.AdditionMovesOntoAdded` | crates/hashring-core/src/topology.rs:353-393 | adding members changes a token's owner only to an added member |
| `Ranges.ComputeDerivedRanges` | crates/hashring-core/src/topology.rs:395-418 | the loop carrying the previous boundary computes the derived ranges, and fails only on an empty ring |
| `Ranges.ReplicasConstant` | crates/hashring-core/src/topology.rs:395-418 | owner and replica list are constant over every piece of every partition that has all assignment tokens as boundaries |
| `Ranges.RangeOfIsPlacement` | crates/hashring-core/src/topology.rs:395-418 | a token's derived range carries exactly the token's own replicas |
| `Ranges.RangesTileTheRing` | crates/hashring-core/src/topology.rs:395-418 | every token lies in exactly one derived range |
| `MigrationPlan.TopologyDelta` | crates/hashring-core/src/migration.rs:204-269 | the loops compute the moves and obligations of the two rings, and refuse exactly when either exceeds its limit |
| `MigrationPlan.MovesAreExact` | crates/hashring-core/src/migration.rs:204-269 | a token lies in an emitted range if and only if its owner differs between the rings, and the range names the old owner as source and the new one as destination |
| `MigrationPlan.MovesAreDisjoint` | crates/hashring-core/src/migration.rs:204-269 | no token lies in two emitted ranges |
| `MigrationPlan.ObligationsAreExact` | crates/hashring-core/src/migration.rs:204-269 | the obligations are exactly the (token, follower) pairs new to the target placement, each with the committed owner as source |
| `Cluster.ReconcileReplicaRepairs` | crates/hashring-coordinator/src/lib.rs:278-383 | the retain, demote and insert passes compute the reconciled tasks, and fail only when the placement needs too many |
| `Cluster.ReconcileSettles` | crates/hashring-coordinator/src/lib.rs:278-383 | from any duplicate-free tasks: exactly one repair for each desired (range, follower), only admissions current in epoch, process and placement, and no Complete repair without an admission |
| `Cluster.ReconcileIsIdempotent` | crates/hashring-coordinator/src/lib.rs:278-383 | reconciling twice is reconciling once |
| `Cluster.SettledIsFixed` | crates/hashring-coordinator/src/lib.rs:278-383 | settled tasks are left exactly as they are |
| `Cluster.StoreRepairAdmissions` | crates/hashring-coordinator/src/repair.rs:925-958 | the loop over a clone of the state keeps a group of admissions whole, exactly if every one is acceptable; otherwise nothing of it is left; validity and settledness are kept |
| `Cluster.StoreOneEffect` | crates/hashring-coordinator/src/repair.rs:920-965 | storing one admission replaces that key's admission, completes its repair, and touches no other key |
| `Removal.ConstituentsTile` | crates/hashring-coordinator/src/removal.rs:19-32 | for a shrunk membership, the constituents of a target range contain exactly its tokens, each in exactly one constituent |
| `Removal.ConstituentsExist` | crates/hashring-coordinator/src/removal.rs:19-32 | no target range is without constituents |
| `Removal.AdmissionFor` | crates/hashring-coordinator/src/removal.rs:34-49 | the admission found is the range's own, of the committed epoch, of the follower's registered process, unfenced; none is found only if there is none |
| `Removal.ProveOwnerCoverage` | crates/hashring-coordinator/src/removal.rs:51-81 | the nested loops accept exactly the covered targets |
| `Removal.CoverageIsPerToken` | crates/hashring-coordinator/src/removal.rs:51-81 | a target is covered if and only if every token is |
| `Removal.CoverageMeansHandover` | crates/hashring-coordinator/src/removal.rs:51-81 | an accepted proof means each token's new owner was its old owner or an admitted, unfenced, same-process first follower |
| `Removal.SingleRemovalNeedsOnlyAdmissions` | crates/hashring-coordinator/src/failure.rs:34-42 | removing one node with RF at least 2 is refused only for a missing admission: it is covered if and only if, for every token the node owned, the new owner is admitted for the token's range |
| `Removal.ProveOwnerLeases` | crates/hashring-coordinator/src/removal.rs:83-110 | accepted if and only if the new owner of every token holds a current lease, which NewOwnersHoldGrants and ExpiredIsConfirmed tie to the grants and the clock |
| `LeaseTerms.NewOwnersHoldGrants` | crates/hashring-coordinator/src/removal.rs:83-110 | in every run, when a failure removal publishes, the new owner of every token is registered and unfenced, and its process was granted a lease at the committed epoch that has not run out: a statement about the grants ever made and the clock |
| `Merge.MergeProof` | crates/hashring-coordinator/src/merge.rs:56-144 | the loops accept exactly the mergeable targets and return exactly the required streams and carried candidates |
| `Merge.RequiredFollowersSurvive` | crates/hashring-coordinator/src/merge.rs:345-437 | once the required streams are caught up, every target range keeps its first needed followers as admissions, and they survive reconciliation at the new epoch |
| `Acknowledgement.NeededIsLeast` | crates/hashring-coordinator/src/merge.rs:43-54 | the number of followers a merge asks for is the least that is enough for the policy and the guard: no smaller number is, and every larger one is |
| `Acknowledgement.MergeableMeansEnough` | crates/hashring-coordinator/src/merge.rs:56-144 | a merge can be proved if and only if every new owner is covered and the first followers of every range, as many as are enough for policy and guard, hold all its parts |
| `Acknowledgement.MergedRangesCanAcknowledge` | crates/hashring-coordinator/src/merge.rs:345-437 | a published merge leaves in every range each follower its writes wait for, and as many as the guard asks for, admitted: only a follower's health or lag can block the range |
| `Effects.PreparedMergeIsProvable` | crates/hashring-coordinator/src/merge.rs:14-41 | a change is prepared as a direct merge if and only if it only removes members and, were every follower admitted, its merge could be proved |
| `MergeProgress.MergeCanPublish` | crates/hashring-coordinator/src/merge.rs:313-437 | from any state of any run, whatever fences are left and whatever the streams still carry, a pending change whose merge can be proved has a continuation that fences, checks and publishes it as a direct merge |
| `Epochs.NewOwnersHoldEverything` | crates/hashring-coordinator/src/merge.rs:345-437 | in every run of any number of epochs, whatever admissions each began with, when a direct merge may publish every token's new owner holds exactly the writes the old owner holds |
| `MergeRun.CaughtUpIsEqual` | crates/hashring-coordinator/src/merge.rs:345-437 | within an epoch, a seeded follower that has applied its whole stream holds exactly its owner's writes in the range |
| `Epochs.CarriedFollowersHoldEverything` | crates/hashring-coordinator/src/merge.rs:345-437 | and so does every follower whose admission the merge carries into the next epoch, for every token of its range |
| `Epochs.RebasedFollowersHoldEverything` | crates/hashring-coordinator/src/policy.rs:80-135 | in every run, when a policy change may publish, every admission it rebases belongs to a follower that holds exactly its owner's writes in the range: identical placement and the catch-up barrier preserve the admission proof |
| `Epochs.AdmittedFollowersMissOnlyTheStream` | crates/hashring-coordinator/src/repair.rs:920-966 | in every state of every run, over every kind of publication, an admitted, unfenced follower lacks only writes that are still on its stream, and holds none its owner lacks |
| `Epochs.OthersCarryNothing` | crates/hashring-coordinator/src/change.rs:206-249 | a publication by moved ranges, a failure removal and a recovery leave no admission of an earlier epoch |
| `Coordinator.StepKeepsRules` | crates/hashring-coordinator/src/lib.rs:137-275 | every durable step obeys the epoch, phase and replacement rules; a phase setter may name any phase, the guard alone keeps a published change published |
| `Coordinator.PublicationIsStorable` | crates/hashring-coordinator/src/change.rs:206-249 | the guard refuses no publication of a valid change whose task metadata is duplicate-free and within the limit |
| `Coordinator.HistoryIsValid` | crates/hashring-coordinator/src/lib.rs:447-475 | every stored state of every history is valid: each step reads back the guard it passed, and what gives this weight is that the guard refuses no lawful step (the Storable rows) |
| `Coordinator.HistoryIsLawful` | crates/hashring-coordinator/src/change.rs:206-249 | in every history a non-terminal change is replaced only by a recovery that supersedes it, and the committed topology changes only at a publication |
| `Coordinator.EpochCountsPublications` | crates/hashring-coordinator/src/change.rs:206-249 | the committed epoch is the first epoch plus the number of publications |
| `Coordinator.PublishedStaysPublished` | crates/hashring-coordinator/src/change.rs:1407-1432 | a published change never returns to an abort or pre-publication phase in any later state |
| `Leases.FailurePublicationIsSafe` | crates/hashring-coordinator/src/change.rs:527-593 | in every run, restarts that forget all grants included, when a failure removal publishes, no lease ever granted to the failed node is unexpired; what the new owners' leases are worth is NewOwnersHoldGrants |
| `Leases.RecoveryIsQuiet` | crates/hashring-coordinator/src/change.rs:426-491 | in every run, from the end of a recovery's lease wait until activation is first marked ready, no grant to any node is live |
| `LeaseTerms.RecoveryActivatesQuietly` | crates/hashring-coordinator/src/change.rs:426-491 | in every run, at the very step that first activates a recovery, no lease ever granted to anybody is unexpired |
| `LeaseTerms.ExpiredIsConfirmed` | crates/hashring-coordinator/src/failure.rs:3-32 | in every run, a member whose every grant has run out is confirmed failed, whatever its peers report |
| `LeaseTerms.UngrantedIsExpired` | crates/hashring-coordinator/src/repair.rs:65-99 | in every run, once a lease duration has passed since startup, a node without an unexpired grant in hand has no unexpired lease of this or any earlier incarnation of the coordinator |
| `LeaseTerms.PublicationEndsLeases` | crates/hashring-coordinator/src/rpc.rs:580-682 | in every run, a publication ends every lease until it is renewed at the new epoch |
| `LeaseTerms.FencingEndsLease` | crates/hashring-coordinator/src/repair.rs:100-121 | the write that plans a failed member's removal ends its lease, whatever it was granted |
| `LeaseTerms.ActivationOpensRenewal` | crates/hashring-coordinator/src/rpc.rs:580-682 | while a published change is not activated no lease is granted; once it is, every registered and unfenced member's is |
| `Service.Plan` | crates/hashring-core/src/migration.rs:142-194 | a change is planned exactly when the endpoints, epoch, target, difference and size limits allow one |
| `Service.PlanBegin` | crates/hashring-coordinator/src/rpc.rs:416-471 | the change found is the only one that can begin: when none is active, not with membership and configuration at once, within policy and size limits; none is found only if there is none |
| `Service.PlanFence` | crates/hashring-coordinator/src/repair.rs:100-121 | the change found is the only one that can fence and remove this member; none is found only if there is none |
| `Service.PlanRecovery` | crates/hashring-coordinator/src/change.rs:319-405 | the change found is the only one that can undo the join from this stored state; none is found only if there is none |
| `Service.ProveFailureCoverage` | crates/hashring-coordinator/src/failure.rs:34-42 | accepted if and only if every token's new owner is covered and holds a current lease |
| `Storable.PlanIsStorable` | crates/hashring-coordinator/src/rpc.rs:416-482 | the guard takes every planned change, direct merges and failure removals included |
| `Storable.AdmissionsAreStorable` | crates/hashring-coordinator/src/repair.rs:920-966 | the guard takes every acceptable group of finished repairs, each with a digest, on a placement within the task limit |
| `Storable.RecoveryIsStorable` | crates/hashring-coordinator/src/change.rs:391-424 | the guard takes every recovery of a failed join from a valid state: its superseded change stays beside it in phase Published |
| `Storable.PublicationsAreStorable` | crates/hashring-coordinator/src/change.rs:206-249 | the guard takes every publication of moved ranges, of a policy change and of a failure removal from a valid state in front of publication |
| `Storable.MergeIsStorable` | crates/hashring-coordinator/src/merge.rs:345-437 | and every publication of a direct merge, with whichever candidates were caught up |
| `Storable.PhaseIsStorable` | crates/hashring-coordinator/src/change.rs:1407-1432 | a phase can be stored if and only if it stays on the change's side of publication: a published change can be completed, and nothing else can be called published |
| `Storable.ResetIsStorable` | crates/hashring-coordinator/src/change.rs:1202-1235 | an attempt can start over if and only if it has not been published |
| `Storable.ResetForgetsCopies` | crates/hashring-coordinator/src/change.rs:1202-1235 | starting over keeps the moves and forgets every copy: no range counts as verified, cleaned or copied to a process, so nothing can be published or recovered from before it is copied again |
| `Storable.ActivationIsStorable` | crates/hashring-coordinator/src/change.rs:1181-1200 | the guard takes every activation |
| `Storable.RegistrationIsStorable` | crates/hashring-coordinator/src/rpc.rs:518-578 | the guard takes every registration |
| `Storable.FenceIsStorable` | crates/hashring-coordinator/src/repair.rs:100-121 | the guard takes the write that fences a failed member and plans its removal |
| `Effects.TargetIsChecked` | crates/hashring-coordinator/src/lib.rs:147-260 | beside a valid state the guard accepts exactly the changes whose target is a valid topology one epoch on, on the committed hash, whose base is the committed topology, and whose plan is within its limits |
| `Effects.PredecessorIsChecked` | crates/hashring-coordinator/src/lib.rs:147-160 | a superseding change is accepted with exactly its own published predecessor, one epoch behind, beside it |
| `Effects.TaskLimitIsTheGuards` | crates/hashring-coordinator/src/lib.rs:138-145 | a publication's reconciled tasks pass the guard if and only if its placement is within the task limit |
| `Effects.EndedChangesMakeRoom` | crates/hashring-coordinator/src/rpc.rs:416-425 | another change can begin if and only if there is none or the last one was completed or aborted |
| `Effects.BegunChangesMove` | crates/hashring-coordinator/src/rpc.rs:440-446 | a begun change that can be prepared as a direct merge is marked as one and moves nothing; any other moves exactly the ranges of its plan, from scratch |
| `Effects.OnlyPublishedActivates` | crates/hashring-coordinator/src/change.rs:1181-1200 | in every durable step, a change becomes ready for activation only as a published one |
| `Effects.RecoveryRestoresPlacement` | crates/hashring-coordinator/src/change.rs:319-424 | a recovery gives every token back to the owner it had before the join; the failed node is fenced, forgotten and no member |
| `Effects.RecoverySourcesHold` | crates/hashring-coordinator/src/change.rs:319-390 | every source a recovery falls back to still runs the process that gave the range away, verified and not cleaned |
| `Effects.MovedRangesAreWhereCopied` | crates/hashring-coordinator/src/change.rs:752-770 | moved ranges are published only while every destination still runs the process they were copied to |
| `Service.ValidStatesAreWalkable` | crates/hashring-coordinator/src/lib.rs:137-275 | every state the guard accepts has sorted, placed topologies and tasks that fit the committed one |
| `Service.OperationsMakeHistories` | crates/hashring-coordinator/src/lib.rs:463-475 | with the repository's guard, every operation extends a history by one step or leaves the state alone |
| `Service.CoordinatorService.Store` | crates/hashring-coordinator/src/lib.rs:463-475 | the state is swapped in exactly if the guard accepts it |
| `Service.CoordinatorService.AdvancePhase` | crates/hashring-coordinator/src/change.rs:1373-1432 | sets the phase of the active change through the guard, or changes nothing |
| `Service.CoordinatorService.MarkActivationReady` | crates/hashring-coordinator/src/change.rs:1181-1200 | only a published change is activated |
| `Service.CoordinatorService.ResetPrepublicationAttempt` | crates/hashring-coordinator/src/change.rs:1209-1235 | every range's progress is forgotten and the change copies again, through the guard |
| `Service.CoordinatorService.BeginTopologyChange` | crates/hashring-coordinator/src/rpc.rs:390-484 | installs the one change these members and this configuration begin, and refuses only if there is none or the guard does not take it |
| `Service.CoordinatorService.FenceFailedNode` | crates/hashring-coordinator/src/repair.rs:65-132 | without an active change, with more than one member and a lease duration after startup, the first member confirmed to have failed is fenced by the write that plans its removal; nothing happens only if there is none, and it is refused only if no such step exists or the guard does not take it |
| `Service.CoordinatorService.ReportPeerHealth` | crates/hashring-coordinator/src/rpc.rs:684-738 | only the registered, leased process of another member is heard, and what is stored is the report history's first and last failing probe |
| `Service.CoordinatorService.AdmitRepairs` | crates/hashring-coordinator/src/repair.rs:920-966 | a group of finished repairs is stored whole, exactly if every seed is acceptable and the guard takes the result; otherwise nothing changes |
| `Failure.ReportIsStretch` | crates/hashring-coordinator/src/rpc.rs:714-736 | a stored report is a stretch of failing probes that was never broken by a success or a removal and in which no probe came later than the freshness allows |
| `Failure.TellingMeansKeptFailing` | crates/hashring-coordinator/src/failure.rs:20-31 | for every history of probes, a stored report counts if and only if the reporter kept failing to reach the peer for the whole lease duration up to now |
| `Failure.ConfirmedMeansTwoWitnesses` | crates/hashring-coordinator/src/failure.rs:3-32 | for every history of probes, a failure is confirmed if and only if the node has no current lease, or two other leased nodes each kept failing to reach it for the whole lease duration up to now |
| `Service.CoordinatorService.PublishMovedRanges` | crates/hashring-coordinator/src/change.rs:201-249 | publishes the expected change exactly when every process the executor copied to has just answered as itself and is still the registered one, the tasks are within the limit and the guard takes it |
| `Service.CoordinatorService.PublishPolicyChange` | crates/hashring-coordinator/src/policy.rs:80-144 | a policy publication rebases admissions and repairs to the new epoch; it happens only under a report that verifies the target's readiness, and is then refused only if it is not the expected change, exceeds the limit or fails the guard |
| `Service.CoordinatorService.PublishFailureRemoval` | crates/hashring-coordinator/src/change.rs:560-589 | publishes only if every token's new owner is covered and leased and the failed node is still fenced, and then unless the guard refuses |
| `Service.CoordinatorService.PublishMergedChange` | crates/hashring-coordinator/src/merge.rs:405-437 | publishes the carried admissions, reconciled at the new epoch and already activated, only if nothing the proof rested on has changed since its snapshot |
| `Service.CoordinatorService.RecoverFailedJoin` | crates/hashring-coordinator/src/change.rs:273-405 | a published join is undone only before activation and as the expected change, only if every original member answers as its registered process and every source answers with the verified watermark of its frozen range, by a change that supersedes it; with those answers it is refused only if no such step exists or the guard does not take it |
| `Service.CoordinatorService.RunPendingChangePass` | crates/hashring-coordinator/src/repair.rs:134-223 | while a published change awaits activation, a pass notes every probe, undoes the join only for a node these and earlier probes confirm down for a lease duration, and confirms nobody only if nobody is |
| `Outages.Scan` | crates/hashring-coordinator/src/repair.rs:189-212 | the loop of a pass leaves the noted outages and confirms a node if and only if some probed node has been down long enough |
| `Outages.LongDownMeansUnanswered` | crates/hashring-coordinator/src/repair.rs:189-212 | after any passes, a node counts as down for a duration if and only if it was found down at least that long ago and has neither answered nor left the change since |
| `Service.CoordinatorService.RegisterNode` | crates/hashring-coordinator/src/rpc.rs:518-578 | a committed node with a registered process keeps it; a joining node may bring a new process and loses its fence |
| `Service.CoordinatorService.RenewNodeLease` | crates/hashring-coordinator/src/rpc.rs:580-682 | a lease is granted exactly to the current, unfenced process of a member at the committed epoch, never while an activation is pending; the answer names exactly the followers admitted in every range whose policy waits for them, with their processes |
| `Renewal.AdmittedFollowers` | crates/hashring-coordinator/src/rpc.rs:605-661 | the two set-building loops leave exactly the awaited followers that lack no admission |
| `Renewal.NamedMeansAdmittedAtEveryToken` | crates/hashring-coordinator/src/rpc.rs:605-661 | a follower is named if and only if some token of the owner waits for it and it is admitted for the range of every token that does |
| `Writability.OverlapMeansShared` | crates/hashring-coordinator/src/migration_helpers.rs:3-15 | two wrapping intervals overlap by the two-ended test if and only if some token lies in both |
| `Writability.FenceCoversMovingTokens` | crates/hashring-coordinator/src/rpc.rs:290-309 | the cutover fence covers exactly the ranges that share a token with a moving range, or all while the policy changes |
| `Writability.ReadyMeansUnblocked` | crates/hashring-node/src/replication.rs:3-88 | given the report of its own epoch, an owner finds the followers of a token exactly if the report's range is not blocked by its placement, and they are exactly the policy's followers |
| `Acknowledgement.WritesWaitForThePolicy` | crates/hashring-node/src/replication.rs:3-88 | a token's writes wait for nobody, for its first successor or for all its followers as the policy says, and each of these is listed, in the owner's range of a report of the owner's epoch, as admitted and within the lag guard |
| `Acknowledgement.DecisionIsExact` | crates/hashring-node/src/replication.rs:3-88 | an owner may acknowledge if and only if its placement can meet the policy, enough followers are admitted and within the guard, and every one the policy names is; an owner-only configuration without a guard needs no report |
| `Acknowledgement.ReportIsExact` | crates/hashring-coordinator/src/rpc.rs:211-288 | a follower is reported admitted exactly if an admission of its current process is stored for the range and it is not fenced, with a lag exactly if its stream was heard of at both ends, and healthy exactly if it is both and within the guard |
| `Acknowledgement.SatisfiableMeansUnblocked` | crates/hashring-coordinator/src/rpc.rs:449-463 | a change is accepted for its policy if and only if, with every follower admitted and healthy, no range of its target would be blocked; the one exception leaves a cluster that already lacks replicas for its policy as it is |
| `Acknowledgement.AcceptedMeansAchievable` | crates/hashring-core/src/topology.rs:429-455 | a configuration is accepted if and only if its numbers are in range and a range with as many replicas as configured, all admitted and healthy, would not be blocked |
| `Writability.WritableMeansReady` | crates/hashring-coordinator/src/rpc.rs:211-366 | a range is reported writable if and only if its owner is leased, no activation or cutover fence is pending, and the owner is ready for every token in it |
| `Writability.VerifiedPolicyIsReady` | crates/hashring-coordinator/src/policy.rs:188-254 | after a verified policy change every token's owner finds exactly the followers the target policy waits for, if and only if the target is not a first-successor policy on a range without followers |
| `Writability.VerifiedMeansCaughtUp` | crates/hashring-coordinator/src/policy.rs:188-254 | under a verifying report, every admitted follower of a range the target keeps has answered and its cursor is at the head of its stream |
| `Acknowledgement.VerifiedMeansBarrier` | crates/hashring-coordinator/src/policy.rs:188-254 | a report verifies a target if and only if it is of the epoch before and, for every range, each admitted follower was heard of with its cursor at its head and the range could acknowledge writes under the target's configuration |
| `Keyspace.OwnedKeysPage` | crates/hashring-node/src/keyspace.rs:53-117 | a page lists exactly the live owned keys from its start to its end in token order; a one-stretch page covers only tokens the node owns; it ends past its start (given an owned start and limits of at least 1 key, 1 byte and 2 examined); and it ends before the ring does only at another node's token in a one-stretch page or with one of its limits reached, which finishing one token's keys is all it can exceed |
| `Keyspace.LiveUntilDeadline` | crates/hashring-node/src/keyspace.rs:53-117 | a record that is not deleted is live exactly before its deadline |
| `Keyspace.TakeBucket` | crates/hashring-node/src/keyspace.rs:53-117 | the keys of one token are always taken whole |
| `Scan.ListKeys` | crates/hashring-node/src/rpc.rs:231-308 | only a leased owner of the start token answers, and with an exact page |
| `Scan.LimitsAreTheRequests` | crates/hashring-node/src/rpc.rs:231-308 | a request within the node's limits is served as asked, one beyond them is cut to them, and one that asks for nothing gets one |
| `Scan.ScanStep` | crates/hashring-client/src/keyspace.rs:118-177 | a step that returns has advanced and lists exactly the kept keys of contiguous stretches, each answered by a leased owner, whatever the topology was for each; it ends before the ring does only with its pages or its count reached, is too large exactly beyond its byte limit, and gives up only with every request answered or refused where it stood |
| `Scan.TracesJoin` | crates/hashring-client/src/keyspace.rs:118-177 | the steps of a scan continue each other without gap or overlap |
| `Scan.CallsAreOneStep` | crates/hashring-client/src/keyspace.rs:118-177 | calls that each continue at the cursor the one before returned are together one exact step |
| `Scan.CompletedScanIsExact` | crates/hashring-client/src/keyspace.rs:118-177 | a scan from token 0 to the end of the ring, over any number of calls and with any topology at any request, returns every wanted key that stays live throughout exactly once |
| `Scan.ScanIsExact` | crates/hashring-client/src/keyspace.rs:118-177 | contiguous stretches round the ring list every key that stays live exactly once, whoever owned each stretch when asked |
| `Scan.ScanIsSound` | crates/hashring-client/src/keyspace.rs:118-177 | and it returns only keys that were live at their owner when their stretch was read |
| `Walk.ListOwned` | crates/hashring-node/src/rpc.rs:231-308 | a node answers a walk's page only at the walk's own topology, an owner only with a lease, and with an exact page |
| `Walk.WalkOnce` | crates/hashring-client/src/keyspace.rs:179-264 | an attempt that finishes has read every owner from token 0 to the end of the ring without gap or overlap, all at one topology; it returns the kept keys of these pages within the shared budget and counts the keys they list |
| `Walk.OwnersCover` | crates/hashring-client/src/keyspace.rs:370-382 | the owners asked are distinct and include the owner of every token |
| `Walk.WalkAll` | crates/hashring-client/src/keyspace.rs:179-213 | a finished walk is the work of one attempt at the topology the client then had, never pieced together from interrupted ones |
| `Walk.WalkIsExact` | crates/hashring-client/src/keyspace.rs:1-9 | a finished walk returns every wanted key that stays live at its leased owner exactly once, and an unwanted one not at all |
| `Walk.WalkIsSound` | crates/hashring-client/src/keyspace.rs:179-264 | and it returns only wanted keys that were live at their leased owner when it was asked |
| `Walk.CountIsExact` | crates/hashring-client/src/keyspace.rs:179-264 | a finished count is at least the number of keys that stayed live, and exactly that number if no other key was live when its owner was asked |
| `Records.MergeKeepsHighest` | crates/hashring-node/src/migration.rs:42-66 | merging leaves, for exactly the keys on offer, an offered record that no offer beats |
| `Records.OrderIsIrrelevant` | crates/hashring-node/src/migration.rs:42-66 | order, batching and repetition are irrelevant if and only if no key has two different records at its highest version that the store does not settle |
| `Transfer.WireRoundTrip` | crates/hashring-node/src/migration.rs:17-40 | a record survives the wire unchanged if and only if it is one a node may store |
| `Transfer.Destination.ApplyBatch` | crates/hashring-node/src/rpc.rs:1649-1713 | a batch is taken up to the first refusal: snapshot records merged, known journal entries skipped, a gap refused; a committed destination takes nothing |
| `Transfer.ReadChangelogPage` | crates/hashring-node/src/rpc.rs:1596-1647 | a page is the longest run of entries that fits, and is empty only at the end of the journal |
| `Transfer.ReplayChangelog` | crates/hashring-coordinator/src/migration_helpers.rs:128-175 | against a paused source the loop terminates, succeeds only with every entry up to the target applied, and reports data loss exactly when the target lies beyond the journal |
| `Transfer.EntriesMerge` | crates/hashring-node/src/rpc.rs:1674-1711 | entries that reach back to the destination's watermark leave exactly the merge of those it had not seen |
| `Transfer.CaughtUpIsEqual` | crates/hashring-coordinator/src/change.rs:619-749 | in every run of writes, page reads and late, repeated or failing deliveries, a destination with the whole snapshot and journal applied holds exactly the source's records |
| `Transfer.PausedStaysEqual` | crates/hashring-coordinator/src/change.rs:798-855 | once the source is paused the two stay equal, whatever is still delivered |
| `TransferProgress.TransferCanFinish` | crates/hashring-coordinator/src/change.rs:619-855 | from any state of any run, whatever was lost, repeated or cut short, at most four more steps leave the destination with exactly the source's records behind a paused source |
| `Replication.Owner.Prepare` | crates/hashring-node/src/replication.rs:104-184 | every follower's entry gets its stream's next number, or nothing happens because an entry exceeds the budget |
| `Replication.Owner.Rollback` | crates/hashring-node/src/replication.rs:186-205 | each entry's number is given back and a stream back at zero leaves the table |
| `Replication.RollbackUndoesPrepare` | crates/hashring-node/src/replication.rs:104-205 | prepare then rollback restores the sequence table exactly, if and only if it listed none of the streams at zero |
| `Replication.Owner.Write` | crates/hashring-node/src/rpc.rs:655-741 | a refused write leaves no trace; an accepted one extends every follower's stream by its next number and no other stream; every stream is numbered from one without a gap |
| `Replication.Owner.InstallEpoch` | crates/hashring-node/src/service.rs:474-495 | a newer topology starts new streams; streams of every epoch stay gapless |
| `Replication.CollectBatch` | crates/hashring-node/src/replication.rs:452-486 | batch and carry are what was taken from the queue, in order; several entries keep the byte bound; no entry is lingered for once a write awaits the batch |
| `Replication.RetainedIsSuffix` | crates/hashring-node/src/replication.rs:609-621 | what a prefix acknowledgement retains of a batch is exactly the part behind it |
| `Replication.Deliver` | crates/hashring-node/src/replication.rs:499-655 | for all replies: every dropped entry had been acknowledged, the rest is held in order, every request is a stretch of the stream that leaves no gap to the one before, and it stops early only when the replies end, the epoch moves on or a reply fails the stream |
| `Replication.FailsExactlyWithoutProgress` | crates/hashring-node/src/replication.rs:499-655 | a stretch fails its stream if and only if it is refused, or answered without naming the process or without getting past its own start |
| `FollowerStream.FollowerHoldsPrefix` | crates/hashring-node/src/rpc.rs:28-185 | whatever stretches arrive, late, again, cut short or below a verified checkpoint, a follower holds a prefix of the stream, never loses an entry, and has all of a stretch it took whole |
| `FollowerStream.NoGapNoRefusal` | crates/hashring-node/src/rpc.rs:1299-1332 | a stretch that starts within what the follower holds and remembers, by fingerprint or checkpoint, is taken whole unless the follower itself refuses an entry |
| `FollowerStream.TakenNeverFails` | crates/hashring-node/src/rpc.rs:28-185 | a follower that takes a stretch, or any of it, never fails the stream by its answer |
| `FollowerStream.TakeKeepsWindow` | crates/hashring-node/src/rpc.rs:1299-1332 | a follower remembers the fingerprints of its last entries only, however many it takes |
| `FollowerStream.RefusedExactlyBehind` | crates/hashring-node/src/rpc.rs:28-185 | in every delivery whose acknowledgements are the follower's own answers, with replies lost, requests repeated and the follower restarting at will, a request is refused for a gap or a forgotten fingerprint if and only if it starts behind what the follower's process has |
| `FollowerStream.NoRequestIsRefusedForOrder` | crates/hashring-node/src/replication.rs:499-655 | so it is refused only between a restart and the next checkpoint that covers what was acknowledged: a follower that had all of it at some request, as at the first, and has not restarted since takes every request it agrees to |
| `FollowerStream.DroppedIsApplied` | crates/hashring-node/src/replication.rs:499-655 | every entry the sender drops was applied at the follower's process that acknowledged it |
| `FollowerStream.DroppedStaysApplied` | crates/hashring-node/src/replication.rs:499-655 | and the follower still has it unless it has restarted since |
| `Dedup.Store.InsertUntil` | crates/hashring-node/src/dedup.rs:332-370 | inserting or replacing a receipt keeps the byte count equal to the sum retained, the index equal to the map, and every receipt scheduled |
| `Dedup.Store.Insert` | crates/hashring-node/src/dedup.rs:311-330 | a receipt expires one retention period after it is made |
| `Dedup.Store.ChargeAcks` | crates/hashring-node/src/rpc.rs:743-750 | awaited acknowledgements are charged to the receipt and the store |
| `Dedup.Store.CompleteRequiredAcks` | crates/hashring-node/src/dedup.rs:161-179 | exactly what was charged is released, once, only for the same mutation, and the counter never underflows |
| `Dedup.Store.Purge` | crates/hashring-node/src/dedup.rs:269-309 | the lazy heap purge equals a plain filter: exactly the receipts expiring later than now remain, whatever stale items replacements left |
| `Dedup.Staging.Stage` | crates/hashring-node/src/dedup.rs:192-244 | staging leaves exactly the staged map with the later of the two expiries under the id, ignores an expired receipt, refuses another mutation under the id or a malformed one, and keeps the byte budget |
| `Dedup.Staging.Purge` | crates/hashring-node/src/dedup.rs:246-253 | exactly the unexpired staged receipts stay and the byte count is their sum |
| `Journey.RemainingCovers` | crates/hashring-node/src/dedup.rs:255-267 | the rounded and capped remaining time covers the real one if and only if the receipt was given at most the retention period |
| `Journey.Commit` | crates/hashring-node/src/rpc.rs:1837-1926 | a commit purges both sides, keeps every receipt the destination already holds, adds the other staged ones and stays within the byte budget; it is refused for a clash exactly if an id names two mutations, and then or without room changes nothing else |
| `Journey.CommittedAreUnexpired` | crates/hashring-node/src/rpc.rs:1837-1926 | nothing expired is committed |
| `Journey.HopMovesEarlierOnlyToOwn` | crates/hashring-node/src/rpc.rs:1837-1926 | an unexpired receipt is always carried, and its expiry moves earlier if and only if the destination already holds the id with an unexpired, earlier receipt |
| `Journey.HopMayMoveEarlier` | crates/hashring-node/src/rpc.rs:1837-1926 | two such hops at the least retention period: the first prolongs a receipt by five milliseconds, the second meets the destination's own receipt and loses four of them |
| `Journey.JourneyOutlives` | crates/hashring-node/src/dedup.rs:192-267 | through any chain of migrations, past any receipts of its id already staged or stored there, a receipt stays and expires no earlier than one retention period after the mutation began |
| `Lifetimes.ReceiptsOutlive` | crates/hashring-node/src/dedup.rs:192-370 | in every run of all nodes' stores and stagings, with receipts made, read, staged, committed, purged and forgotten in any order from the moment a mutation starts, every receipt of it anywhere expires no earlier than one retention period after that start |
| `Lifetimes.CustodyHolds` | crates/hashring-node/src/rpc.rs:1837-1926 | and within that period whichever node has been handed the range, by any chain of migrations interleaved with anything else, has the receipt |
| `Lifetimes.CustodyCanMove` | crates/hashring-node/src/rpc.rs:1837-1926 | in every run, within that period, whoever is in charge can hand the range to any node over any migration, by three more events, and the receipt arrives there |
| `Lifetimes.RetryFindsReceipt` | crates/hashring-client/src/lib.rs:1342-1352 | so a retry processed there before the client's mutation deadline finds the receipt after purging |
| `Refresh.NoTriggerIsLost` | crates/hashring-client/src/lib.rs:1559-1589 | in every interleaving of any number of triggers and workers, at quiescence each trigger has been answered by an attempt that read the generation after it and asked for at least its epoch |
| `RefreshProgress.SchedulesEnd` | crates/hashring-client/src/lib.rs:1559-1589 | from every reachable state, while no trigger is called, every schedule of triggers and workers is no longer than the work left there, and one that cannot go on is quiescent |
| `RefreshProgress.EveryTriggerIsAnswered` | crates/hashring-client/src/lib.rs:1559-1589 | so however they interleave the refresh comes to rest, with every trigger answered |
| `RefreshProgress.WorkIsLeftUnlessQuiet` | crates/hashring-client/src/lib.rs:1559-1589 | a state is quiescent if and only if no trigger and no worker has an operation left |
| `RefreshProgress.AsksOncePerGeneration` | crates/hashring-client/src/lib.rs:1559-1574 | in every run, a worker that has asked for a generation asks again only for a later one |
| `Refresh.UnansweredMeansWorkLeft` | crates/hashring-client/src/lib.rs:1323-1340 | in every state, a counted trigger is answered or somebody will still look |
| `Refresh.OneWorkerRefreshes` | crates/hashring-client/src/lib.rs:1559-1589 | at most one worker is ever refreshing |
| `Refresh.AttemptsAnswerWhatTheyCount` | crates/hashring-client/src/lib.rs:1559-1574 | every attempt asked for at least the epoch of every trigger counted when it read the generation |
| `History.RememberedIsBounded` | crates/hashring-experiment/src/fault.rs:435-470 | the history never repeats a state, ends with the one just acknowledged, and never outgrows its window, which holds at least one |
| `History.WindowHoldsNewest` | crates/hashring-experiment/src/fault.rs:435-470 | after any sequence of acknowledgements the window holds exactly the most recently acknowledged states in order |
| `History.KeyModel.constructor` | crates/hashring-experiment/src/fault.rs:403-415 | a fresh model explains its first state |
| `History.KeyModel.RememberState` | crates/hashring-experiment/src/fault.rs:435-470 | for every fingerprint function, even a constant one, the indexed history is the plain move-to-back list and the index counts its fingerprints exactly |
| `History.KeyModel.OnPut` | crates/hashring-experiment/src/fault.rs:486-488 | an acknowledged put leaves the model explaining exactly its state, with the history moved on as the plain list's |
| `History.KeyModel.OnDelete` | crates/hashring-experiment/src/fault.rs:490-492 | an acknowledged delete leaves the model explaining exactly the absence at its version |
| `History.KeyModel.OnAmbiguous` | crates/hashring-experiment/src/fault.rs:494-507 | an unclear mutation becomes a possible state and a remembered one |
| `History.KeyModel.ObserveRead` | crates/hashring-experiment/src/fault.rs:535-599 | the indexed model answers and changes as the plain one does |
| `History.CorrectRegisterMatches` | crates/hashring-experiment/src/fault.rs:403-599 | after any run in which every unclear mutation took effect at once or never, a read of the register answers Matches |
| `Verdicts.ImpossibleIsUnexplained` | crates/hashring-experiment/src/fault.rs:535-599 | after any run, Impossible is answered only if no state acknowledged, attempted or read in the run matches, save an attempt of unknown version whose version a read has since named |
| `Verdicts.RollbackIsRecorded` | crates/hashring-experiment/src/fault.rs:535-599 | after any run, Rollback is answered only if a state of the run explains the read and no possible one does |
| `Verdicts.RollbackIsNamed` | crates/hashring-experiment/src/fault.rs:535-599 | after any run, a rollback is called the first one if and only if no read since the round began was answered so, and its kind says exactly whether a value was lost, a delete was lost or an older value came back |
| `Verdicts.UndecidableNeedsOverflow` | crates/hashring-experiment/src/fault.rs:535-599 | after any run, Undecidable is answered only if the run put more states on record than the window holds |
| `OperationMix.CoprimeStride` | crates/hashring-experiment/src/fault.rs:116-125 | the search terminates for every total, finds the smallest stride from 37 on that shares no divisor with the total but 1, and stays below the total or 75 |
| `OperationMix.ComputeGcd` | crates/hashring-experiment/src/fault.rs:127-134 | the loop computes the Gcd that GcdIsGreatest is about |
| `OperationMix.GcdIsGreatest` | crates/hashring-experiment/src/fault.rs:127-134 | Gcd divides both arguments, and every common divisor divides it |
| `OperationMix.GcdOneMeansCoprime` | crates/hashring-experiment/src/fault.rs:116-134 | Gcd is 1 if and only if the arguments have no common divisor but 1 |
| `OperationMix.StepsDiffer` | crates/hashring-experiment/src/fault.rs:84-98 | two steps less than a total apart never meet in a slot if they lie between the same two wraps of the 64-bit walk, or if the total divides 2^64 |
| `OperationMix.RoundIsExact` | crates/hashring-experiment/src/fault.rs:84-98 | over any total consecutive steps with no wrap inside, or with a total that divides 2^64, each worker issues each operation exactly as often as configured |
| `OperationMix.RoundIsPermutation` | crates/hashring-experiment/src/fault.rs:84-98 | where a round is no longer than 2^64, it visits every slot exactly once if and only if no wrap falls inside it or the total divides 2^64 |
| `OperationMix.WrappedRoundIsInexact` | crates/hashring-experiment/src/fault.rs:84-98 | an input on which a wrapping round misses its mix |

## Left out

- OperationMix.RoundIsPermutation: the equivalence is stated for rounds no longer than 2^64, which hold at most one wrap; of longer rounds it is stated that a total dividing 2^64 keeps them exact.
- Refresh.NoTriggerIsLost: the trigger generation is unbounded, so its wrap-around after 2^64 triggers is not modelled; an attempt counts as one whether or not its request succeeded, as in the source.
- RefreshProgress.SchedulesEnd: a request to the coordinator is one operation, so that it ends by its deadline is taken for granted.
- TransferProgress.TransferCanFinish: the four steps are deliveries that the destination takes; a destination that refuses for good, for a full receipt store say, never catches up.
- MergeProgress.MergeCanPublish: in the continuation no process stops answering and nothing else writes the coordinator's state.
- Transfer.CaughtUpIsEqual: the source's next version is taken to be above every version it holds, which holds because committed epochs rise at every publication; the range digests that the coordinator compares afterwards are not modelled.
- Epochs.NewOwnersHoldEverything: copying a range to a follower is one step whose contract is that of a transfer caught up behind a paused source (`Transfer.CaughtUpIsEqual`); the data of nodes is a set of writes, and one execution holds the execution lock at a time.
- Epochs.RebasedFollowersHoldEverything: the two ends of a stream answer the report's question with the stream's head and the follower's applied sequence of that moment.
- Leases.FailurePublicationIsSafe: the statement is on the coordinator's clock; that a node's own clock never lets it use a lease longer is an assumption about clock rates outside the model.
- Failure.ConfirmedMeansTwoWitnesses: the probes are those of one run of the coordinator, whose clock does not go back; a restart forgets them.
- Lifetimes.RetryFindsReceipt: all nodes measure durations at the same rate, the retention period is the same everywhere, and the node in charge has not restarted, which would lose its receipts.
- FollowerStream.FollowerHoldsPrefix: a follower's receipt store and its own checks of an entry are folded into whether it takes one.
- Scan.CompletedScanIsExact: a key counts as live throughout when it is live at its leased owner whenever that owner is asked; expiry during a page is judged at that page's clock.
- Walk.WalkOnce: owners are walked one after the other, not concurrently, which matters only for which of them meets the shared byte budget; a topology stands for its epoch.
- Service.CoordinatorService.BeginTopologyChange: the request's optional fields are resolved to one configuration before the call.
- Service.CoordinatorService.RunPendingChangePass: which participants a pass probes, a rotating window of them, is a parameter; before publication a confirmed outage aborts the change or only names itself as the reason it is blocked, which is not modelled.
- `random_key` and `first_key`: they take one key of a page.
- `missing_merge_streams`, `seed_repairs_for_activation` and repair scheduling: they choose which admissions to seed next, and admissions may arrive in any order here.
- `try_map_bounded`, retry loops and deadlines of requests: they bound concurrency and time, not results.
- The stop protocol, source cleanup and destination activation after publication: bookkeeping steps that edit neither topology nor phase.
- Record expiry sweeps: an expired record in a moving range is kept by the source until the migration ends, so the transfer needs no sweep step.
- Conditions, expiry intent and value preservation of writes: they decide what record a write stores, which is arbitrary here.
- Endpoints of moving ranges, migration timings, metrics and diagnostics: measurement or addressing.
- Reservation budgets of the replication dispatcher: whether queues take a write's entries is a parameter; the unacknowledged queue that only measures lag is left out.
- Byte lengths of node ids, the snapshot digest, and protobuf conversions: field copies and hashes.
- gRPC transport, the redb file format, the command line, YAML configuration, the Redis gateway, the Lua crate and the process orchestration of experiments.
