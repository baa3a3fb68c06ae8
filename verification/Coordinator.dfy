/**
 The coordinator's durable state machine. Every operation clones the state under a lock, edits the
 clone, stores it through a guarded write, and swaps it in; a refused write changes nothing.
 */
module Coordinator {
  import opened Ring
  import opened Topology
  import opened Placement
  import opened Ranges
  import opened MigrationPlan
  import opened Cluster
  import opened Merge
  import opened Runs

  const MAX_EPOCH: nat := 0xFFFF_FFFF_FFFF_FFFF

  function SaturatingSuccessor(e: nat): (r: nat)
    ensures r <= MAX_EPOCH && (e < MAX_EPOCH ==> r == e + 1)
  {
    if e >= MAX_EPOCH then MAX_EPOCH else e + 1
  }

  // ----- The guard of every durable write -----

  /** The active change descends from the committed topology: it starts there before publication, and is
      the committed topology afterwards. */
  predicate Descends(st: ClusterState, c: Change) {
    if BeforePublication(c.phase)
    then c.baseEpoch == st.committed.epoch && c.target.epoch == SaturatingSuccessor(st.committed.epoch)
    else c.target == st.committed && SaturatingSuccessor(c.baseEpoch) == st.committed.epoch
  }

  predicate HasPredecessor(st: ClusterState, c: Change) {
    c.supersedes.Some? ==>
      && st.superseded.Some? && st.superseded.value.id == c.supersedes.value
      && st.superseded.value.target.epoch == c.baseEpoch && st.superseded.value.phase == Published
  }

  predicate ChangeValid(h: VnodeHash, st: ClusterState, c: Change) {
    && HasPredecessor(st, c)
    && |c.ranges| <= MAX_MIGRATION_RANGES && |c.obligations| <= MAX_REPLICA_OBLIGATIONS
    && Valid(h, c.target)
    && Descends(st, c)
    && c.target.seed == st.committed.seed && c.target.vnodes == st.committed.vnodes
    && (c.base.Some? ==> && Valid(h, c.base.value) && c.base.value.epoch == c.baseEpoch
                         && (BeforePublication(c.phase) ==> c.base.value == st.committed))
  }

  predicate IdentitiesValid(st: ClusterState) {
    && (forall n :: n in st.instances ==> n != EMPTY_ID && st.instances[n] != 0)
    && EMPTY_ID !in st.fenced
    && (forall n :: n in st.stopConfirmations
          ==> n != EMPTY_ID && st.stopConfirmations[n] != {} && 0 !in st.stopConfirmations[n])
  }

  predicate ReplicaMetadataValid(st: ClusterState) {
    && |st.tasks.admissions| <= MAX_REPLICA_OBLIGATIONS && |st.tasks.repairs| <= MAX_REPLICA_OBLIGATIONS
    && HasPlacement(st.committed)
    && TasksValid(st.tasks, st.committed.epoch, DesiredKeys(DerivedRanges(st.committed)))
    && forall a :: a in st.tasks.admissions ==> a.instance != 0 && a.digest != 0
  }

  /** `ClusterState::validate`. */
  predicate Validate(h: VnodeHash, st: ClusterState) {
    && Valid(h, st.committed)
    && (st.active.Some? ==> ChangeValid(h, st, st.active.value))
    && IdentitiesValid(st)
    && ReplicaMetadataValid(st)
  }

  // ----- Planning -----

  /** A change as `plan_with_config` makes it. */
  ghost predicate IsPlan(h: VnodeHash, committed: Snapshot, members: seq<Member>, config: Config, c: Change) {
    && committed.epoch < MAX_EPOCH
    && Build(h, committed.epoch + 1, committed.seed, committed.vnodes, members, config, committed.timings) == Ok(c.target)
    && (forall m, n :: m in committed.members && n in members && m.id == n.id ==> m.endpoint == n.endpoint)
    && (c.target.members != committed.members || c.target.config != committed.config)
    && HasPlacement(committed) && HasPlacement(c.target)
    && |Moves(committed, c.target)| <= MAX_MIGRATION_RANGES
    && |Obligations(committed, c.target)| <= MAX_REPLICA_OBLIGATIONS
    && c == Change(c.id, committed.epoch, Some(committed), None, c.target, Planned,
                   FreshRanges(Moves(committed, c.target)), Obligations(committed, c.target), [], [], [], None, false, false)
  }

  function FreshRanges(moves: seq<RangeMove>): seq<RangeProgress> {
    seq(|moves|, i requires 0 <= i < |moves| => RangeProgress(moves[i], 0, 0, false, 0, 0, false))
  }

  // ----- Edits of the state -----

  datatype Identity = Identity(id: ChangeId, baseEpoch: nat, targetEpoch: nat)

  function IdentityOf(c: Change): Identity {
    Identity(c.id, c.baseEpoch, c.target.epoch)
  }

  predicate Idle(st: ClusterState) {
    st.active.Some? ==> IsTerminal(st.active.value.phase)
  }

  function Installed(st: ClusterState, c: Change): ClusterState {
    st.(active := Some(c), blockReason := "")
  }

  /** A change a client asked for, marked as a direct merge when it can be one. */
  function Prepared(committed: Snapshot, c: Change): Change
    requires HasPlacement(committed) && HasPlacement(c.target)
  {
    if CanPrepareDirectMerge(committed, c.target) then c.(directMerge := true, ranges := []) else c
  }

  predicate PolicySatisfiable(committed: Snapshot, target: Snapshot) {
    var guard, n := target.config.guard, |target.members|;
    && n >= guard.minAdmittedCopies && n - 1 >= guard.minHealthyFollowers
    && target.config.rf >= guard.minAdmittedCopies && target.config.rf - 1 >= guard.minHealthyFollowers
    && (target.config.policy == FirstSuccessor ==> n >= 2)
    && (target.config.policy == AllReplicas
        ==> n >= target.config.rf || (target.members == committed.members && target.config.rf == committed.config.rf))
  }

  function WithPhase(st: ClusterState, p: Phase): ClusterState
    requires st.active.Some?
  {
    st.(active := Some(st.active.value.(phase := p)), blockReason := if IsTerminal(p) then "" else st.blockReason)
  }

  function WithActivation(st: ClusterState): ClusterState
    requires st.active.Some?
  {
    st.(active := Some(st.active.value.(activationReady := true)), blockReason := "")
  }

  function ResetRange(r: RangeProgress): RangeProgress {
    RangeProgress(r.move, 0, 0, false, 0, 0, false)
  }

  function WithReset(st: ClusterState): ClusterState
    requires st.active.Some?
  {
    var c := st.active.value;
    st.(active := Some(c.(ranges := seq(|c.ranges|, i requires 0 <= i < |c.ranges| => ResetRange(c.ranges[i])),
                          phase := CopyingSnapshot)))
  }

  function ReconciledFor(st: ClusterState, target: Snapshot, t: Tasks): Tasks
    requires HasPlacement(target)
  {
    Reconciled(t, target.epoch, DesiredKeys(DerivedRanges(target)), st.instances)
  }

  predicate WithinTaskLimit(target: Snapshot)
    requires HasPlacement(target)
  {
    |DesiredKeys(DerivedRanges(target))| <= MAX_REPLICA_OBLIGATIONS
  }

  /** Publication of the active change with the given metadata and activation flag. */
  function PublishedWith(st: ClusterState, t: Tasks, ready: bool): ClusterState
    requires st.active.Some? && HasPlacement(st.active.value.target)
  {
    var c := st.active.value;
    st.(committed := c.target, active := Some(c.(phase := Published, activationReady := ready)),
        tasks := ReconciledFor(st, c.target, t))
  }

  /** A policy change keeps its placement, so admissions and repairs move to the new epoch. */
  function Rebased(t: Tasks, epoch: nat): Tasks {
    Tasks(seq(|t.admissions|, i requires 0 <= i < |t.admissions| => t.admissions[i].(epoch := epoch)),
          seq(|t.repairs|, i requires 0 <= i < |t.repairs| => t.repairs[i].(epoch := epoch)))
  }

  // ----- Durable steps -----

  ghost predicate Begin(h: VnodeHash, st: ClusterState, st': ClusterState, members: seq<Member>, config: Config, c: Change) {
    && Idle(st)
    && (config != st.committed.config ==> members == st.committed.members)
    && IsPlan(h, st.committed, members, config, c)
    && PolicySatisfiable(st.committed, c.target) && WithinTaskLimit(c.target)
    && st' == Installed(st, Prepared(st.committed, c))
  }

  predicate MayFence(st: ClusterState, failed: NodeId) {
    && Idle(st) && |st.committed.members| > 1
    && failed in Ids(st.committed.members) && failed in st.instances && failed !in st.fenced
  }

  /** `run_failure_pass`: the failed member is fenced in the same write that plans its removal. */
  ghost predicate FenceFailed(h: VnodeHash, st: ClusterState, st': ClusterState, failed: NodeId, c: Change) {
    && MayFence(st, failed)
    && IsPlan(h, st.committed, Remaining(st.committed.members, {failed}), st.committed.config, c)
    && st' == Installed(st, c.(failed := Some(failed))).(fenced := st.fenced + {failed})
  }

  ghost predicate SetPhase(st: ClusterState, st': ClusterState, p: Phase) {
    st.active.Some? && st' == WithPhase(st, p)
  }

  ghost predicate SetActivationReady(st: ClusterState, st': ClusterState) {
    st.active.Some? && st.active.value.phase == Published && st' == WithActivation(st)
  }

  ghost predicate ResetAttempt(st: ClusterState, st': ClusterState) {
    st.active.Some? && st' == WithReset(st)
  }

  /** Range progress, stop bookkeeping, replica repairs and registrations of processes: everything that
      edits neither the topology nor the identity and phase of the change. */
  ghost predicate Bookkeeping(st: ClusterState, st': ClusterState) {
    && st'.committed == st.committed && st'.superseded == st.superseded && st'.fenced == st.fenced
    && (st.active.Some? <==> st'.active.Some?)
    && (st.active.Some? ==>
          st'.active.value == st.active.value.(ranges := st'.active.value.ranges, stopped := st'.active.value.stopped,
                                              stopping := st'.active.value.stopping,
                                              stopPrepared := st'.active.value.stopPrepared))
  }

  /** Each range was copied to a named process, and that process is still the registered one. */
  predicate DestinationsCurrent(instances: map<NodeId, Instance>, ranges: seq<RangeProgress>) {
    forall r :: r in ranges ==>
      && r.destinationInstance != 0
      && r.move.destination in instances && instances[r.move.destination] == r.destinationInstance
  }

  /** `ranges` is the executor's own record of what it copied where, not the stored one. */
  ghost predicate PublishMoved(st: ClusterState, st': ClusterState, expected: Identity, ranges: seq<RangeProgress>) {
    && st.active.Some? && IdentityOf(st.active.value) == expected && HasPlacement(st.active.value.target)
    && DestinationsCurrent(st.instances, ranges) && WithinTaskLimit(st.active.value.target)
    && st' == PublishedWith(st, st.tasks, st.active.value.activationReady)
  }

  ghost predicate PublishPolicy(st: ClusterState, st': ClusterState, expected: Identity) {
    && st.active.Some? && IdentityOf(st.active.value) == expected && HasPlacement(st.active.value.target)
    && WithinTaskLimit(st.active.value.target)
    && st' == PublishedWith(st, Rebased(st.tasks, st.active.value.target.epoch), st.active.value.activationReady)
  }

  ghost predicate PublishMerged(st: ClusterState, st': ClusterState, expected: Identity, carried: seq<Admission>) {
    && st.active.Some? && IdentityOf(st.active.value) == expected && HasPlacement(st.active.value.target)
    && WithinTaskLimit(st.active.value.target)
    && st' == PublishedWith(st, Tasks(carried, []), true)
  }

  ghost predicate PublishFailed(st: ClusterState, st': ClusterState, expected: Identity) {
    && st.active.Some? && IdentityOf(st.active.value) == expected && HasPlacement(st.active.value.target)
    && st.active.value.failed.Some? && st.active.value.failed.value in st.fenced
    && WithinTaskLimit(st.active.value.target)
    && var survivors := st.(instances := st.instances - {st.active.value.failed.value});
       st' == PublishedWith(survivors, Tasks([], []), true)
  }

  predicate SourcesIntact(st: ClusterState, c: Change, failed: NodeId) {
    forall r :: r in c.ranges ==>
      && r.move.destination == failed && r.verified && !r.sourceCleaned && r.sourceInstance != 0
      && r.move.source in st.instances && st.instances[r.move.source] == r.sourceInstance
  }

  /** The state after a recovery: the old members at a new epoch, the failed node fenced and forgotten. */
  function Recovered(st: ClusterState, failed: NodeId, recovery: Change): ClusterState
    requires st.active.Some? && HasPlacement(recovery.target)
  {
    st.(committed := recovery.target,
        active := Some(recovery.(ranges := [], phase := Published, supersedes := Some(st.active.value.id))),
        superseded := st.active, fenced := st.fenced + {failed}, instances := st.instances - {failed},
        tasks := ReconciledFor(st.(instances := st.instances - {failed}), recovery.target, Tasks([], [])),
        blockReason := "")
  }

  /** Without this one, the members are exactly these. */
  predicate SurvivorsAre(members: seq<Member>, failed: NodeId, rest: seq<Member>) {
    (forall m :: m in members && m.id != failed ==> m in rest) && (forall m :: m in rest ==> m in members && m.id != failed)
  }

  /** A published join that was never activated, whose new member failed and whose sources still hold everything. */
  predicate MayRecover(st: ClusterState, failed: NodeId) {
    && ActivationPending(st) && st.active.value.base.Some?
    && var base := st.active.value.base.value;
       && base.members != [] && failed !in Ids(base.members)
       && SurvivorsAre(st.committed.members, failed, base.members)
       && SourcesIntact(st, st.active.value, failed)
  }

  /** It is rolled back by a recovery change that supersedes it, published at once. */
  ghost predicate Recover(h: VnodeHash, st: ClusterState, st': ClusterState, failed: NodeId, recovery: Change) {
    && MayRecover(st, failed)
    && IsPlan(h, st.committed, st.active.value.base.value.members, st.committed.config, recovery)
    && WithinTaskLimit(recovery.target)
    && st' == Recovered(st, failed, recovery)
  }

  /** Registering a member or a joining node. A committed node keeps its process; a joining node's fence is
      lifted. */
  ghost predicate Register(st: ClusterState, st': ClusterState, node: NodeId, instance: Instance) {
    var committed := node in Ids(st.committed.members);
    var pending := st.active.Some? && !IsTerminal(st.active.value.phase) && node in Ids(st.active.value.target.members);
    && node != EMPTY_ID && instance != 0 && (committed || pending)
    && !(committed && node in st.fenced)
    && (node in st.instances ==> st.instances[node] != instance && !committed)
    && st' == st.(fenced := if committed then st.fenced else st.fenced - {node}, instances := st.instances[node := instance])
  }

  ghost predicate Publication(h: VnodeHash, st: ClusterState, st': ClusterState) {
    || (exists e, ranges :: PublishMoved(st, st', e, ranges))
    || (exists e :: PublishPolicy(st, st', e))
    || (exists e, carried :: PublishMerged(st, st', e, carried))
    || (exists e :: PublishFailed(st, st', e))
    || (exists f, r :: Recover(h, st, st', f, r))
  }

  ghost predicate Planning(h: VnodeHash, st: ClusterState, st': ClusterState) {
    || (exists m, g, c :: Begin(h, st, st', m, g, c))
    || (exists f, c :: FenceFailed(h, st, st', f, c))
  }

  ghost predicate Progress(st: ClusterState, st': ClusterState) {
    || (exists p :: SetPhase(st, st', p))
    || SetActivationReady(st, st')
    || ResetAttempt(st, st')
    || Bookkeeping(st, st')
    || (exists n, i :: Register(st, st', n, i))
  }

  /** One durable step, through the guard. */
  ghost predicate Step(h: VnodeHash, st: ClusterState, st': ClusterState) {
    Validate(h, st') && (Planning(h, st, st') || Progress(st, st') || Publication(h, st, st'))
  }

  // ----- What every step keeps -----

  /** Change epochs are consecutive: the planner's checked addition, which the guard's saturating one does
      not show by itself. */
  predicate EpochsConsecutive(st: ClusterState) {
    st.active.Some? ==> st.active.value.target.epoch == st.active.value.baseEpoch + 1
  }

  predicate IsPublished(st: ClusterState) {
    st.active.Some? && !BeforePublication(st.active.value.phase)
  }

  /** The committed epoch rises by exactly one at a publication, whose change is then the committed
      topology, and the committed topology changes at no other step. */
  predicate EpochRule(st: ClusterState, st': ClusterState) {
    || st'.committed == st.committed
    || (&& st'.committed.epoch == st.committed.epoch + 1
        && st'.active.Some? && st'.active.value.phase == Published && st'.active.value.target == st'.committed
        && st'.active.value.baseEpoch == st.committed.epoch)
  }

  /** A published change never returns to an abort or pre-publication phase. */
  predicate PhaseRule(st: ClusterState, st': ClusterState) {
    IsPublished(st) && st'.active.Some? && st'.active.value.id == st.active.value.id ==> IsPublished(st')
  }

  /** A change that has not ended is replaced only by a recovery that supersedes it. */
  predicate ReplaceRule(st: ClusterState, st': ClusterState) {
    (st.active.Some? && !IsTerminal(st.active.value.phase)) ==>
      && st'.active.Some?
      && ((st'.active.value.id == st.active.value.id && st'.active.value.target == st.active.value.target)
          || (&& st.active.value.phase == Published && st'.superseded == st.active
              && st'.active.value.supersedes == Some(st.active.value.id) && st'.active.value.phase == Published))
  }

  predicate Rules(st: ClusterState, st': ClusterState) {
    EpochRule(st, st') && PhaseRule(st, st') && ReplaceRule(st, st')
  }

  /** New changes get new ids. */
  ghost predicate FreshIds(st: ClusterState, st': ClusterState) {
    (st.active.Some? && st'.active.Some? && st'.active.value.target != st.active.value.target) ==>
      st'.active.value.id != st.active.value.id
  }

  lemma {:induction false} PlanFacts(h: VnodeHash, committed: Snapshot, members: seq<Member>, config: Config, c: Change)
    requires IsPlan(h, committed, members, config, c)
    ensures c.target.epoch == committed.epoch + 1 && c.baseEpoch == committed.epoch && c.phase == Planned
    ensures !c.activationReady && c.failed == None && c.supersedes == None
    ensures c.target.members == SortMembers(members)
  {
  }

  lemma PlanningKeepsRules(h: VnodeHash, st: ClusterState, st': ClusterState)
    requires Planning(h, st, st') && EpochsConsecutive(st)
    ensures EpochsConsecutive(st') && st'.committed == st.committed && ReplaceRule(st, st')
    ensures st'.active.Some? && st'.active.value.target.epoch == st.committed.epoch + 1
  {
    if m, g, c :| Begin(h, st, st', m, g, c) {
      PlanFacts(h, st.committed, m, g, c);
    } else {
      var f, c :| FenceFailed(h, st, st', f, c);
      PlanFacts(h, st.committed, Remaining(st.committed.members, {f}), st.committed.config, c);
    }
  }

  /** The part of the guard the rules rest on. */
  predicate Anchored(st: ClusterState) {
    st.active.Some? ==> Descends(st, st.active.value)
  }

  /** The four publications of the active change, seen from the change. */
  ghost predicate PublishesActive(st: ClusterState, st': ClusterState) {
    && st.active.Some? && st'.active.Some? && st'.superseded == st.superseded
    && st'.committed == st.active.value.target
    && st'.active.value == st.active.value.(phase := Published, activationReady := st'.active.value.activationReady)
  }

  lemma PublicationShape(h: VnodeHash, st: ClusterState, st': ClusterState)
    requires Publication(h, st, st') && !exists f, r :: Recover(h, st, st', f, r)
    ensures PublishesActive(st, st')
  {
    if e, ranges :| PublishMoved(st, st', e, ranges) {
    } else if e :| PublishPolicy(st, st', e) {
    } else if e, carried :| PublishMerged(st, st', e, carried) {
    } else {
      var e :| PublishFailed(st, st', e);
    }
  }

  lemma ActivePublicationKeepsRules(st: ClusterState, st': ClusterState)
    requires Anchored(st) && Anchored(st') && PublishesActive(st, st') && EpochsConsecutive(st)
    ensures EpochsConsecutive(st') && EpochRule(st, st') && PhaseRule(st, st') && ReplaceRule(st, st')
  {
  }

  lemma RecoveryKeepsRules(h: VnodeHash, st: ClusterState, st': ClusterState, f: NodeId, r: Change)
    requires Anchored(st) && Recover(h, st, st', f, r)
    ensures EpochsConsecutive(st') && EpochRule(st, st') && PhaseRule(st, st') && ReplaceRule(st, st')
  {
    PlanFacts(h, st.committed, st.active.value.base.value.members, st.committed.config, r);
  }

  /** What the progress steps leave alone. */
  lemma ProgressShape(st: ClusterState, st': ClusterState)
    requires Progress(st, st')
    ensures st'.committed == st.committed && (st.active.Some? <==> st'.active.Some?)
    ensures st.active.Some? ==> && st'.active.value.id == st.active.value.id
                                && st'.active.value.target == st.active.value.target
                                && st'.active.value.baseEpoch == st.active.value.baseEpoch
                                && st'.active.value.failed == st.active.value.failed
                                && (st.active.value.activationReady ==> st'.active.value.activationReady)
  {
    if p :| SetPhase(st, st', p) {
    } else if SetActivationReady(st, st') {
    } else if ResetAttempt(st, st') {
    } else if Bookkeeping(st, st') {
    } else {
      var n, i :| Register(st, st', n, i);
    }
  }

  lemma ProgressKeepsRules(st: ClusterState, st': ClusterState)
    requires Anchored(st) && Anchored(st') && Progress(st, st') && EpochsConsecutive(st)
    ensures EpochsConsecutive(st') && st'.committed == st.committed && PhaseRule(st, st') && ReplaceRule(st, st')
  {
    ProgressShape(st, st');
  }

  /** Every durable step obeys the three rules. A phase setter may name any phase: the guard alone keeps a
      published change published. */
  lemma StepKeepsRules(h: VnodeHash, st: ClusterState, st': ClusterState)
    requires Anchored(st) && EpochsConsecutive(st) && Step(h, st, st') && FreshIds(st, st')
    ensures Anchored(st') && EpochsConsecutive(st') && Rules(st, st')
  {
    assert Anchored(st');
    if Planning(h, st, st') {
      PlanningKeepsRules(h, st, st');
    } else if Progress(st, st') {
      ProgressKeepsRules(st, st');
    } else if f, r :| Recover(h, st, st', f, r) {
      RecoveryKeepsRules(h, st, st', f, r);
    } else {
      PublicationShape(h, st, st');
      ActivePublicationKeepsRules(st, st');
    }
  }

  // ----- The guard refuses no publication -----

  lemma {:induction false} KeysFit(keys: seq<TaskKey>, desired: seq<TaskKey>)
    requires forall i, j :: 0 <= i < j < |keys| ==> keys[i] != keys[j]
    requires forall k :: k in keys ==> k in desired
    ensures |keys| <= |desired|
  {
    KeySetSize(keys);
    KeySetBound(desired);
    CardinalityOfSubset(set k | k in keys, set k | k in desired);
  }

  lemma {:induction false} KeySetSize(keys: seq<TaskKey>)
    requires forall i, j :: 0 <= i < j < |keys| ==> keys[i] != keys[j]
    ensures |set k | k in keys| == |keys|
  {
    if keys != [] {
      var init, last := keys[..|keys| - 1], keys[|keys| - 1];
      KeySetSize(init);
      assert keys == init + [last];
      assert (set k | k in keys) == (set k | k in init) + {last};
    }
  }

  lemma {:induction false} KeySetBound(keys: seq<TaskKey>)
    ensures |set k | k in keys| <= |keys|
  {
    if keys != [] {
      var init, last := keys[..|keys| - 1], keys[|keys| - 1];
      KeySetBound(init);
      assert keys == init + [last];
      assert (set k | k in keys) == (set k | k in init) + {last};
    }
  }

  lemma {:induction false} CardinalityOfSubset(a: set<TaskKey>, b: set<TaskKey>)
    requires a <= b
    ensures |a| <= |b|
    decreases b
  {
    if a != {} {
      var x :| x in a;
      CardinalityOfSubset(a - {x}, b - {x});
    }
  }

  lemma ValidTasksFit(t: Tasks, epoch: nat, desired: seq<TaskKey>)
    requires TasksValid(t, epoch, desired)
    ensures |t.admissions| <= |desired| && |t.repairs| <= |desired|
  {
    var admissionKeys := seq(|t.admissions|, i requires 0 <= i < |t.admissions| => KeyOf(t.admissions[i]));
    var repairKeys := seq(|t.repairs|, i requires 0 <= i < |t.repairs| => RepairKey(t.repairs[i]));
    forall i | 0 <= i < |admissionKeys| ensures admissionKeys[i] in desired {
      assert t.admissions[i] in t.admissions;
    }
    forall i | 0 <= i < |repairKeys| ensures repairKeys[i] in desired {
      assert t.repairs[i] in t.repairs;
    }
    KeysFit(admissionKeys, desired);
    KeysFit(repairKeys, desired);
  }

  lemma ReconciledIsStorable(st: ClusterState, target: Snapshot, t: Tasks)
    requires HasPlacement(target) && WithinTaskLimit(target)
    requires DistinctAdmissions(t.admissions) && DistinctRepairs(t.repairs)
    requires forall a :: a in t.admissions ==> a.instance != 0 && a.digest != 0
    ensures ReplicaMetadataValid(st.(committed := target, tasks := ReconciledFor(st, target, t)))
  {
    var desired := DesiredKeys(DerivedRanges(target));
    ReconcileSettles(t, target.epoch, desired, st.instances);
    ValidTasksFit(ReconciledFor(st, target, t), target.epoch, desired);
  }

  /** A change that is valid before publication can always be published: with duplicate-free metadata inside
      the limit on replica tasks, the write guard accepts the published state. */
  lemma PublicationIsStorable(h: VnodeHash, st: ClusterState, t: Tasks, ready: bool)
    requires Validate(h, st) && EpochsConsecutive(st)
    requires st.active.Some? && BeforePublication(st.active.value.phase)
    requires HasPlacement(st.active.value.target) && WithinTaskLimit(st.active.value.target)
    requires DistinctAdmissions(t.admissions) && DistinctRepairs(t.repairs)
    requires forall a :: a in t.admissions ==> a.instance != 0 && a.digest != 0
    ensures Validate(h, PublishedWith(st, t, ready))
  {
    ReconciledIsStorable(st, st.active.value.target, t);
    assert ChangeValid(h, st, st.active.value);
    var next := PublishedWith(st, t, ready);
    assert Descends(next, next.active.value);
  }

  // ----- Whole histories -----

  /** One entry of a history: a refused write repeats the state, and a restart reloads it and reconciles its
      metadata, which is bookkeeping. */
  ghost predicate HistoryStep(h: VnodeHash, st: ClusterState, st': ClusterState) {
    st' == st || Step(h, st, st')
  }

  /** The stored states of a coordinator from its bootstrap on. Change ids are never reused. */
  ghost predicate IsHistory(h: VnodeHash, run: seq<ClusterState>) {
    && |run| > 0 && Validate(h, run[0]) && run[0].active == None
    && (forall i :: 0 < i < |run| ==> StepTo(h, run, i)) && UniqueIds(run)
  }

  ghost predicate StepTo(h: VnodeHash, run: seq<ClusterState>, i: nat)
    requires 0 < i < |run|
  {
    HistoryStep(h, run[i - 1], run[i])
  }

  ghost predicate UniqueIds(run: seq<ClusterState>) {
    forall i, j :: 0 <= i < j < |run| ==> SameIdSameTarget(run[i], run[j])
  }

  ghost predicate SameIdSameTarget(a: ClusterState, b: ClusterState) {
    (a.active.Some? && b.active.Some? && a.active.value.id == b.active.value.id) ==>
      a.active.value.target == b.active.value.target
  }

  /** A history seen through the rules alone. */
  ghost predicate Lawful(run: seq<ClusterState>) {
    forall i :: 0 <= i < |run| ==> LawfulAt(run, i)
  }

  ghost predicate LawfulAt(run: seq<ClusterState>, i: nat)
    requires i < |run|
  {
    Anchored(run[i]) && EpochsConsecutive(run[i]) && (i > 0 ==> Rules(run[i - 1], run[i]))
  }

  lemma HistoryStepKeepsRules(h: VnodeHash, st: ClusterState, st': ClusterState)
    requires Anchored(st) && EpochsConsecutive(st) && HistoryStep(h, st, st') && SameIdSameTarget(st, st')
    ensures Anchored(st') && EpochsConsecutive(st') && Rules(st, st')
  {
    if st' != st {
      StepKeepsRules(h, st, st');
    }
  }

  lemma HistoryStepIsValid(h: VnodeHash, st: ClusterState, st': ClusterState)
    requires HistoryStep(h, st, st') && Validate(h, st)
    ensures Validate(h, st')
  {
  }

  /** What every step of a history keeps holds throughout it. */
  lemma HistoryKeeps(h: VnodeHash, run: seq<ClusterState>, inv: ClusterState -> bool, i: nat)
    requires i < |run| && inv(run[0]) && forall j :: 0 < j < |run| ==> StepTo(h, run, j)
    requires forall s, s' :: inv(s) && HistoryStep(h, s, s') ==> inv(s')
    ensures inv(run[i])
  {
    forall j | 0 <= j && j + 1 < |run| && inv(run[j]) ensures Keeps(run, inv, j) {
      assert StepTo(h, run, j + 1);
    }
    Throughout(run, inv, 0, i);
  }

  /** Every stored state is valid. */
  lemma HistoryIsValid(h: VnodeHash, run: seq<ClusterState>, i: nat)
    requires IsHistory(h, run) && i < |run|
    ensures Validate(h, run[i])
  {
    var inv := s => Validate(h, s);
    forall s, s' | inv(s) && HistoryStep(h, s, s') ensures inv(s') {
      HistoryStepIsValid(h, s, s');
    }
    HistoryKeeps(h, run, inv, i);
  }

  lemma StepToKeepsRules(h: VnodeHash, run: seq<ClusterState>, i: nat)
    requires 0 < i < |run| && StepTo(h, run, i) && UniqueIds(run) && Anchored(run[i - 1]) && EpochsConsecutive(run[i - 1])
    ensures Anchored(run[i]) && EpochsConsecutive(run[i]) && Rules(run[i - 1], run[i])
  {
    assert SameIdSameTarget(run[i - 1], run[i]);
    HistoryStepKeepsRules(h, run[i - 1], run[i]);
  }

  lemma HistoryIsAnchored(h: VnodeHash, run: seq<ClusterState>, i: nat)
    requires IsHistory(h, run) && i < |run|
    ensures Anchored(run[i]) && EpochsConsecutive(run[i])
  {
    var inv := s => Anchored(s) && EpochsConsecutive(s);
    forall j | 0 <= j && j + 1 < |run| && inv(run[j]) ensures Keeps(run, inv, j) {
      StepToKeepsRules(h, run, j + 1);
    }
    Throughout(run, inv, 0, i);
  }

  lemma HistoryIsLawfulAt(h: VnodeHash, run: seq<ClusterState>, i: nat)
    requires IsHistory(h, run) && i < |run|
    ensures LawfulAt(run, i)
  {
    HistoryIsAnchored(h, run, i);
    if i > 0 {
      HistoryIsAnchored(h, run, i - 1);
      StepToKeepsRules(h, run, i);
    }
  }

  /** Every history is lawful. */
  lemma HistoryIsLawful(h: VnodeHash, run: seq<ClusterState>)
    requires IsHistory(h, run)
    ensures Lawful(run)
  {
    forall i | 0 <= i < |run| ensures LawfulAt(run, i) {
      HistoryIsLawfulAt(h, run, i);
    }
  }

  /** How many of the first n steps replaced the committed topology. */
  ghost function Publications(run: seq<ClusterState>, n: nat): nat
    requires n < |run|
  {
    if n == 0 then 0 else Publications(run, n - 1) + if run[n].committed != run[n - 1].committed then 1 else 0
  }

  /** The committed epoch is the bootstrap epoch plus the number of publications. */
  lemma {:induction false} EpochCountsPublications(run: seq<ClusterState>, n: nat)
    requires Lawful(run) && n < |run|
    ensures run[n].committed.epoch == run[0].committed.epoch + Publications(run, n)
  {
    if n > 0 {
      EpochCountsPublications(run, n - 1);
      assert LawfulAt(run, n);
    }
  }

  lemma {:induction false} EpochNeverFalls(run: seq<ClusterState>, i: nat, j: nat)
    requires Lawful(run) && i <= j < |run|
    ensures run[i].committed.epoch <= run[j].committed.epoch
  {
    if i < j {
      EpochNeverFalls(run, i, j - 1);
      assert LawfulAt(run, j);
    }
  }

  /** Once a change is published, it is published in every later state it is active in. */
  lemma PublishedStaysPublished(run: seq<ClusterState>, i: nat, j: nat)
    requires Lawful(run) && UniqueIds(run) && i <= j < |run| && IsPublished(run[i])
    requires run[j].active.Some? && run[j].active.value.id == run[i].active.value.id
    ensures IsPublished(run[j])
  {
    EpochNeverFalls(run, i, j);
    if i < j {
      assert SameIdSameTarget(run[i], run[j]);
    }
    assert LawfulAt(run, i) && LawfulAt(run, j);
  }
}
