/**
 The coordinator as it runs: each operation builds the next state, offers it to the guarded store and swaps it in only
 when the store takes it. Every operation is one step of the durable state machine or changes nothing.
 */
module Service {
  import opened Ring
  import opened Topology
  import opened Placement
  import opened Ranges
  import opened MigrationPlan
  import opened Cluster
  import opened Removal
  import opened Merge
  import opened Coordinator
  import opened Leases
  import opened Canonical
  import opened Writability
  import opened Failure
  import opened Outages
  import opened Renewal

  // ----- Planning -----

  datatype Refusal = NoActiveChange | WrongChange | WrongPhase | Unfenced | NotPlannable | Unsatisfiable | AnotherActive
    | StaleDestinations | TooManyTasks | Rejected | NotStored

  datatype PlanError = EndpointChange | EpochOverflow | BadTarget(error: TopologyError) | NoChange | TooLarge

  predicate EndpointsKept(committed: seq<Member>, members: seq<Member>) {
    forall m, n :: m in committed && n in members && m.id == n.id ==> m.endpoint == n.endpoint
  }

  /** The target differs from the committed topology in more than its epoch. */
  predicate Moved(committed: Snapshot, target: Result<Snapshot, TopologyError>) {
    target.Ok? && (target.value.members != committed.members || target.value.config != committed.config)
  }

  function Judged(committed: Snapshot, built: Result<Snapshot, TopologyError>): Result<Snapshot, PlanError> {
    if built.Err? then Err(BadTarget(built.error)) else if !Moved(committed, built) then Err(NoChange) else Ok(built.value)
  }

  ghost predicate WithinDelta(committed: Snapshot, target: Snapshot)
    requires HasPlacement(committed) && HasPlacement(target)
  {
    |Moves(committed, target)| <= MAX_MIGRATION_RANGES && |Obligations(committed, target)| <= MAX_REPLICA_OBLIGATIONS
  }

  /** There is a plan for these members and this configuration. */
  ghost predicate Plannable(h: VnodeHash, committed: Snapshot, members: seq<Member>, config: Config)
    requires HasPlacement(committed)
  {
    && EndpointsKept(committed.members, members) && committed.epoch < MAX_EPOCH
    && Moved(committed, TargetOf(h, committed, members, config))
    && var target := TargetOf(h, committed, members, config).value;
       HasPlacement(target) && WithinDelta(committed, target)
  }

  lemma PlansArePlannable(h: VnodeHash, committed: Snapshot, members: seq<Member>, config: Config, c: Change)
    requires IsPlan(h, committed, members, config, c)
    ensures Plannable(h, committed, members, config)
  {
  }

  lemma ValidIsPlaced(h: VnodeHash, s: Snapshot)
    requires Valid(h, s)
    ensures Sorted(s.assignments) && HasPlacement(s)
  {
    ValidIsSorted(h, s);
  }

  function FreshChange(id: ChangeId, committed: Snapshot, target: Snapshot, moves: seq<RangeMove>,
                       obligations: seq<Obligation>)
    : Change
  {
    Change(id, committed.epoch, Some(committed), None, target, Planned, FreshRanges(moves), obligations, [], [], [], None,
           false, false)
  }

  lemma FreshIsPlan(h: VnodeHash, committed: Snapshot, members: seq<Member>, config: Config, id: ChangeId, target: Snapshot)
    requires HasPlacement(committed) && Plannable(h, committed, members, config)
    requires TargetOf(h, committed, members, config) == Ok(target)
    ensures IsPlan(h, committed, members, config,
                   FreshChange(id, committed, target, Moves(committed, target), Obligations(committed, target)))
  {
  }

  /** The moves and obligations of a plan, if they are within the limits. */
  method PlanDelta(committed: Snapshot, target: Snapshot, id: ChangeId) returns (r: Option<Change>)
    requires Sorted(committed.assignments) && HasPlacement(committed) && Sorted(target.assignments) && HasPlacement(target)
    ensures r.Some? <==> WithinDelta(committed, target)
    ensures r.Some? ==>
      r.value == FreshChange(id, committed, target, Moves(committed, target), Obligations(committed, target))
  {
    var delta := TopologyDelta(committed, target);
    if delta.Err? { return None; }
    return Some(FreshChange(id, committed, target, delta.value.0, delta.value.1));
  }

  method BuildTarget(h: VnodeHash, committed: Snapshot, members: seq<Member>, config: Config)
    returns (built: Result<Snapshot, TopologyError>)
    ensures built == TargetOf(h, committed, members, config)
  {
    var epoch := committed.epoch + 1;
    built := NewWithTimings(h, epoch, committed.seed, committed.vnodes, members, config, committed.timings);
  }

  /** `plan_with_config`: it plans exactly what can be planned. */
  method Plan(h: VnodeHash, committed: Snapshot, members: seq<Member>, config: Config, id: ChangeId)
    returns (r: Result<Change, PlanError>)
    requires Sorted(committed.assignments) && HasPlacement(committed)
    ensures r.Ok? <==> Plannable(h, committed, members, config)
    ensures r.Ok? ==> IsPlan(h, committed, members, config, r.value) && r.value.id == id
  {
    if !EndpointsKept(committed.members, members) { return Err(EndpointChange); }
    if committed.epoch >= MAX_EPOCH { return Err(EpochOverflow); }
    var built := BuildTarget(h, committed, members, config);
    var target := Judged(committed, built);
    if target.Err? { return Err(target.error); }
    TargetIsValid(h, committed, members, config, target.value);
    ValidIsPlaced(h, target.value);
    var change := PlanDelta(committed, target.value, id);
    if change.None? { return Err(TooLarge); }
    FreshIsPlan(h, committed, members, config, id, target.value);
    return Ok(change.value);
  }

  // ----- The one change each planning step can install -----

  ghost predicate Begins(h: VnodeHash, st: ClusterState, st': ClusterState, members: seq<Member>, config: Config,
                         id: ChangeId) {
    exists c :: Begin(h, st, st', members, config, c) && c.id == id
  }

  ghost predicate Fences(h: VnodeHash, st: ClusterState, st': ClusterState, failed: NodeId, id: ChangeId) {
    exists c :: FenceFailed(h, st, st', failed, c) && c.id == id
  }

  ghost predicate Recovers(h: VnodeHash, st: ClusterState, st': ClusterState, failed: NodeId, id: ChangeId) {
    exists c :: Recover(h, st, st', failed, c) && c.id == id
  }

  lemma PlanIsUnique(h: VnodeHash, committed: Snapshot, members: seq<Member>, config: Config, a: Change, b: Change)
    requires IsPlan(h, committed, members, config, a) && IsPlan(h, committed, members, config, b) && a.id == b.id
    ensures a == b
  {
  }

  /** With the plan at hand, beginning is decided by the remaining checks. */
  lemma BeginIsDecided(h: VnodeHash, st: ClusterState, members: seq<Member>, config: Config, p: Change, st': ClusterState)
    requires IsPlan(h, st.committed, members, config, p)
    ensures Begins(h, st, st', members, config, p.id)
       <==> (&& Idle(st) && (config != st.committed.config ==> members == st.committed.members)
             && PolicySatisfiable(st.committed, p.target) && WithinTaskLimit(p.target)
             && st' == Installed(st, Prepared(st.committed, p)))
  {
    if c :| Begin(h, st, st', members, config, c) && c.id == p.id {
      PlanIsUnique(h, st.committed, members, config, c, p);
    }
    if && Idle(st) && (config != st.committed.config ==> members == st.committed.members)
       && PolicySatisfiable(st.committed, p.target) && WithinTaskLimit(p.target)
       && st' == Installed(st, Prepared(st.committed, p)) {
      assert Begin(h, st, st', members, config, p);
    }
  }

  lemma NoPlanNoBegin(h: VnodeHash, st: ClusterState, members: seq<Member>, config: Config, id: ChangeId, st': ClusterState)
    requires HasPlacement(st.committed) && !Plannable(h, st.committed, members, config)
    ensures !Begins(h, st, st', members, config, id)
  {
    if c :| Begin(h, st, st', members, config, c) && c.id == id {
      PlansArePlannable(h, st.committed, members, config, c);
    }
  }

  /** The change that these members and this configuration begin, if there is one. */
  method PlanBegin(h: VnodeHash, st: ClusterState, members: seq<Member>, config: Config, id: ChangeId)
    returns (r: Result<Change, Refusal>)
    requires Placed(st.committed)
    ensures r.Err? ==> forall st' :: !Begins(h, st, st', members, config, id)
    ensures r.Ok? ==> forall st' :: Begins(h, st, st', members, config, id) <==> st' == Installed(st, r.value)
  {
    if !Idle(st) { return Err(AnotherActive); }
    if config != st.committed.config && members != st.committed.members { return Err(Rejected); }
    var plan := Plan(h, st.committed, members, config, id);
    if plan.Err? {
      forall st' ensures !Begins(h, st, st', members, config, id) {
        NoPlanNoBegin(h, st, members, config, id, st');
      }
      return Err(NotPlannable);
    }
    var change := Prepared(st.committed, plan.value);
    forall st' {
      BeginIsDecided(h, st, members, config, plan.value, st');
    }
    if !PolicySatisfiable(st.committed, change.target) { return Err(Unsatisfiable); }
    if !WithinTaskLimit(change.target) { return Err(TooManyTasks); }
    return Ok(change);
  }

  lemma FenceIsDecided(h: VnodeHash, st: ClusterState, failed: NodeId, p: Change, st': ClusterState)
    requires IsPlan(h, st.committed, Remaining(st.committed.members, {failed}), st.committed.config, p)
    ensures Fences(h, st, st', failed, p.id)
       <==> MayFence(st, failed) && st' == Installed(st, p.(failed := Some(failed))).(fenced := st.fenced + {failed})
  {
    var rest := Remaining(st.committed.members, {failed});
    if c :| FenceFailed(h, st, st', failed, c) && c.id == p.id {
      PlanIsUnique(h, st.committed, rest, st.committed.config, c, p);
    }
    if MayFence(st, failed) && st' == Installed(st, p.(failed := Some(failed))).(fenced := st.fenced + {failed}) {
      assert FenceFailed(h, st, st', failed, p);
    }
  }

  lemma NoPlanNoFence(h: VnodeHash, st: ClusterState, failed: NodeId, id: ChangeId, st': ClusterState)
    requires HasPlacement(st.committed)
    requires !Plannable(h, st.committed, Remaining(st.committed.members, {failed}), st.committed.config)
    ensures !Fences(h, st, st', failed, id)
  {
    if c :| FenceFailed(h, st, st', failed, c) && c.id == id {
      PlansArePlannable(h, st.committed, Remaining(st.committed.members, {failed}), st.committed.config, c);
    }
  }

  /** The change that removes a failed member, if it may be fenced now. */
  method PlanFence(h: VnodeHash, st: ClusterState, failed: NodeId, id: ChangeId) returns (r: Result<Change, Refusal>)
    requires Placed(st.committed)
    ensures r.Err? ==> forall st' :: !Fences(h, st, st', failed, id)
    ensures r.Ok? ==> forall st' :: Fences(h, st, st', failed, id)
                               <==> st' == Installed(st, r.value).(fenced := st.fenced + {failed})
  {
    if !MayFence(st, failed) { return Err(Rejected); }
    var plan := Plan(h, st.committed, Remaining(st.committed.members, {failed}), st.committed.config, id);
    if plan.Err? {
      forall st' ensures !Fences(h, st, st', failed, id) {
        NoPlanNoFence(h, st, failed, id, st');
      }
      return Err(NotPlannable);
    }
    forall st' {
      FenceIsDecided(h, st, failed, plan.value, st');
    }
    return Ok(plan.value.(failed := Some(failed)));
  }

  lemma RecoveryIsDecided(h: VnodeHash, st: ClusterState, failed: NodeId, p: Change, st': ClusterState)
    requires MayRecover(st, failed)
    requires IsPlan(h, st.committed, st.active.value.base.value.members, st.committed.config, p)
    ensures Recovers(h, st, st', failed, p.id) <==> WithinTaskLimit(p.target) && st' == Recovered(st, failed, p)
  {
    if c :| Recover(h, st, st', failed, c) && c.id == p.id {
      PlanIsUnique(h, st.committed, st.active.value.base.value.members, st.committed.config, c, p);
    }
    if WithinTaskLimit(p.target) && st' == Recovered(st, failed, p) {
      assert Recover(h, st, st', failed, p);
    }
  }

  lemma NoPlanNoRecovery(h: VnodeHash, st: ClusterState, failed: NodeId, id: ChangeId, st': ClusterState)
    requires HasPlacement(st.committed) && MayRecover(st, failed)
    requires !Plannable(h, st.committed, st.active.value.base.value.members, st.committed.config)
    ensures !Recovers(h, st, st', failed, id)
  {
    if c :| Recover(h, st, st', failed, c) && c.id == id {
      PlansArePlannable(h, st.committed, st.active.value.base.value.members, st.committed.config, c);
    }
  }

  /** The change back to the members before the join, if the join may be undone. */
  method PlanRecovery(h: VnodeHash, st: ClusterState, failed: NodeId, id: ChangeId) returns (r: Result<Change, Refusal>)
    requires Placed(st.committed)
    ensures r.Err? ==> forall st' :: !Recovers(h, st, st', failed, id)
    ensures r.Ok? ==> && st.active.Some? && HasPlacement(r.value.target)
                      && forall st' :: Recovers(h, st, st', failed, id) <==> st' == Recovered(st, failed, r.value)
  {
    if !MayRecover(st, failed) { return Err(Rejected); }
    var plan := Plan(h, st.committed, st.active.value.base.value.members, st.committed.config, id);
    if plan.Err? {
      forall st' ensures !Recovers(h, st, st', failed, id) {
        NoPlanNoRecovery(h, st, failed, id, st');
      }
      return Err(NotPlannable);
    }
    forall st' {
      RecoveryIsDecided(h, st, failed, plan.value, st');
    }
    if !WithinTaskLimit(plan.value.target) { return Err(TooManyTasks); }
    return Ok(plan.value);
  }

  // ----- The service -----

  /** What any operation does to the durable state: nothing, or one step the guard accepts. */
  ghost predicate OneStep(h: VnodeHash, guard: ClusterState -> bool, st: ClusterState, st': ClusterState) {
    st' == st || (guard(st') && (Planning(h, st, st') || Progress(st, st') || Publication(h, st, st')))
  }

  /** With the repository's guard, every operation extends a history. */
  lemma OperationsMakeHistories(h: VnodeHash, guard: ClusterState -> bool, st: ClusterState, st': ClusterState)
    requires OneStep(h, guard, st, st') && forall s :: guard(s) <==> Validate(h, s)
    ensures HistoryStep(h, st, st')
  {
  }

  /** The topologies of a state can be walked. */
  ghost predicate Walkable(st: ClusterState) {
    Placed(st.committed) && (st.active.Some? ==> Placed(st.active.value.target))
  }

  /** The tasks of a state fit its committed topology. */
  ghost predicate Tasked(st: ClusterState) {
    HasPlacement(st.committed) && TasksValid(st.tasks, st.committed.epoch, DesiredKeys(DerivedRanges(st.committed)))
  }

  /** Every state the repository's guard accepts can be walked and has fitting tasks, which is all the operations ask of
      the guard. */
  lemma ValidStatesAreWalkable(h: VnodeHash, st: ClusterState)
    requires Validate(h, st)
    ensures Walkable(st) && Tasked(st)
  {
    ValidIsPlaced(h, st.committed);
    if st.active.Some? {
      ValidIsPlaced(h, st.active.value.target);
    }
  }

  /** The active change's target is ready under this report. */
  ghost predicate PolicyReady(st: ClusterState, status: Status) {
    st.active.Some? && HasPlacement(st.active.value.target) && PolicyReadinessVerified(st.active.value.target, status)
  }

  /** Every token's new owner is covered and holds a current lease. */
  ghost predicate SafeToRemove(st: ClusterState, grants: map<NodeId, Grant>, now: Instant) {
    && st.active.Some? && HasPlacement(st.committed) && HasPlacement(st.active.value.target)
    && Covered(st, st.active.value.target)
    && forall t: Token :: HasLease(st, grants, Owner(st.active.value.target.assignments, t), now)
  }

  /** `prove_failure_coverage`. */
  method ProveFailureCoverage(st: ClusterState, grants: map<NodeId, Grant>, now: Instant) returns (safe: bool)
    requires Walkable(st) && st.active.Some?
    ensures safe <==> SafeToRemove(st, grants, now)
  {
    var coverage := ProveOwnerCoverage(st, st.active.value.target);
    if coverage.Err? { return false; }
    var leases := ProveOwnerLeases(st, st.active.value.target, grants, now);
    return leases.Ok?;
  }

  // ----- What a recovery asks -----

  /** Who takes part in a change that is not yet cleaning up: the members before and after it, if registered. */
  function Participants(st: ClusterState): set<NodeId> {
    if st.active.None? then {}
    else
      var c := st.active.value;
      var all := Ids(c.target.members) + if c.base.Some? then Ids(c.base.value.members) else {};
      set n | n in all && n in st.instances
  }

  lemma ParticipantsAre(st: ClusterState, n: NodeId)
    ensures n in Participants(st)
       <==> && n in st.instances && st.active.Some?
            && (n in Ids(st.active.value.target.members)
                || (st.active.value.base.Some? && n in Ids(st.active.value.base.value.members)))
  {
  }

  function PassOf(st: ClusterState, probes: seq<Ping>, now: Instant): Pass {
    Pass(Participants(st), probes, now)
  }


  /** Every original member still runs the registered process, and every source still holds its frozen range at the
      watermark that was verified. `watermarks` is empty where no digest came back. */
  predicate SourcesAnswer(st: ClusterState, processes: map<NodeId, Instance>, watermarks: map<RangeMove, nat>) {
    && st.active.Some? && st.active.value.base.Some?
    && (forall m :: m in st.active.value.base.value.members ==>
          m.id in st.instances && m.id in processes && processes[m.id] == st.instances[m.id])
    && forall r :: r in st.active.value.ranges ==> r.move in watermarks && watermarks[r.move] == r.watermark
  }

  predicate Expected(st: ClusterState, expected: Identity) {
    st.active.Some? && IdentityOf(st.active.value) == expected
  }

  class CoordinatorService {
    const hash: VnodeHash
    const guard: ClusterState -> bool
    const leaseNanos: nat
    const startupAt: Instant
    var state: ClusterState
    var grants: map<NodeId, Grant>
    var reports: Reports
    var outages: Downtime

    /** A coordinator starts from the stored state and holds no grants, no reports and no outages. */
    constructor (hash: VnodeHash, guard: ClusterState -> bool, leaseNanos: nat, stored: ClusterState, now: Instant)
      ensures state == stored && grants == map[] && reports == map[] && outages == map[] && startupAt == now
      ensures this.hash == hash && this.guard == guard && this.leaseNanos == leaseNanos
    {
      this.hash, this.guard, this.leaseNanos, startupAt := hash, guard, leaseNanos, now;
      state, grants, reports, outages := stored, map[], map[], map[];
    }

    /** The state was accepted by a guard that accepts only walkable states. */
    ghost predicate Sound()
      reads this
    {
      guard(state) && forall s :: guard(s) ==> Walkable(s)
    }

    /** The guarded write: the state is swapped in exactly if the guard accepts it. */
    method Store(next: ClusterState) returns (ok: bool)
      requires Sound()
      modifies this`state
      ensures Sound()
      ensures ok == guard(next) && state == if ok then next else old(state)
    {
      ok := guard(next);
      if ok { state := next; }
    }

    /** `set_phase`. */
    method AdvancePhase(phase: Phase) returns (r: Result<(), Refusal>)
      requires Sound()
      modifies this`state
      ensures Sound() && OneStep(hash, guard, old(state), state)
      ensures r.Ok? <==> old(state).active.Some? && guard(WithPhase(old(state), phase))
      ensures state == if r.Ok? then WithPhase(old(state), phase) else old(state)
    {
      if state.active.None? { return Err(NoActiveChange); }
      ghost var before := state;
      var ok := Store(WithPhase(state, phase));
      if !ok { return Err(NotStored); }
      assert SetPhase(before, state, phase);
      return Ok(());
    }

    /** `set_activation_ready`: only a published change is activated. */
    method MarkActivationReady() returns (r: Result<(), Refusal>)
      requires Sound()
      modifies this`state
      ensures Sound() && OneStep(hash, guard, old(state), state)
      ensures r.Ok? <==> && old(state).active.Some? && old(state).active.value.phase == Published
                         && guard(WithActivation(old(state)))
      ensures state == if r.Ok? then WithActivation(old(state)) else old(state)
    {
      if state.active.None? { return Err(NoActiveChange); }
      if state.active.value.phase != Published { return Err(WrongPhase); }
      ghost var before := state;
      var ok := Store(WithActivation(state));
      if !ok { return Err(NotStored); }
      assert SetActivationReady(before, state);
      return Ok(());
    }

    /** `reset_prepublication_attempt`. */
    method ResetPrepublicationAttempt() returns (r: Result<(), Refusal>)
      requires Sound()
      modifies this`state
      ensures Sound() && OneStep(hash, guard, old(state), state)
      ensures r.Ok? <==> old(state).active.Some? && guard(WithReset(old(state)))
      ensures state == if r.Ok? then WithReset(old(state)) else old(state)
    {
      if state.active.None? { return Err(NoActiveChange); }
      ghost var before := state;
      var ok := Store(WithReset(state));
      if !ok { return Err(NotStored); }
      assert ResetAttempt(before, state);
      return Ok(());
    }

    /** `begin_topology_change`: installs the one change these members and this configuration begin, and refuses only if
        there is none or the guard does not take it. */
    method BeginTopologyChange(members: seq<Member>, config: Config, id: ChangeId) returns (r: Result<Change, Refusal>)
      requires Sound()
      modifies this`state
      ensures Sound() && OneStep(hash, guard, old(state), state)
      ensures r.Err? ==> state == old(state)
      ensures r.Ok? ==> Begins(hash, old(state), state, members, config, id) && state == Installed(old(state), r.value)
      ensures r.Err? ==> forall st' :: Begins(hash, old(state), st', members, config, id) ==> !guard(st')
    {
      ghost var before := state;
      var change := PlanBegin(hash, state, members, config, id);
      if change.Err? { return Err(change.error); }
      var ok := Store(Installed(state, change.value));
      if !ok { return Err(NotStored); }
      assert Begins(hash, before, state, members, config, id);
      return Ok(change.value);
    }

    /** The fencing write of `run_failure_pass`: the failed node is fenced by the write that plans its removal. */
    method StoreFence(failed: NodeId, id: ChangeId) returns (r: Result<Change, Refusal>)
      requires Sound()
      modifies this`state
      ensures Sound() && OneStep(hash, guard, old(state), state)
      ensures r.Err? ==> state == old(state)
      ensures r.Ok? ==> Fences(hash, old(state), state, failed, id) && failed in state.fenced
      ensures r.Err? ==> forall st' :: Fences(hash, old(state), st', failed, id) ==> !guard(st')
    {
      ghost var before := state;
      var change := PlanFence(hash, state, failed, id);
      if change.Err? { return Err(change.error); }
      var ok := Store(Installed(state, change.value).(fenced := state.fenced + {failed}));
      if !ok { return Err(NotStored); }
      assert Fences(hash, before, state, failed, id);
      return Ok(change.value);
    }

    /** `run_failure_pass` while no change is active: once a lease duration has passed since startup, the first member
        confirmed to have failed is fenced. */
    method FenceFailedNode(id: ChangeId, now: Instant) returns (r: Result<Option<NodeId>, Refusal>)
      requires Sound()
      modifies this`state
      ensures Sound() && OneStep(hash, guard, old(state), state)
      ensures r.Err? || r.value.None? ==> state == old(state)
      ensures r.Ok? ==>
        r.value == if Idle(old(state)) && |old(state).committed.members| > 1 && startupAt + leaseNanos <= now
                   then PassTarget(old(state), now) else None
      ensures r.Ok? && r.value.Some? ==>
        && Fences(hash, old(state), state, r.value.value, id) && r.value.value in state.fenced
        && FailureConfirmed(old(state), grants, reports, r.value.value, now)
      ensures r.Err? ==>
        && Idle(old(state)) && |old(state).committed.members| > 1 && startupAt + leaseNanos <= now
        && PassTarget(old(state), now).Some?
        && forall st' :: Fences(hash, old(state), st', PassTarget(old(state), now).value, id) ==> !guard(st')
    {
      if !MayPass(state, now) { return Ok(None); }
      var failed := PassTarget(state, now);
      if failed.None? { return Ok(None); }
      var change := StoreFence(failed.value, id);
      if change.Err? { return Err(change.error); }
      return Ok(failed);
    }

    predicate MayPass(st: ClusterState, now: Instant) {
      Idle(st) && |st.committed.members| > 1 && PastStartup(startupAt, leaseNanos, now)
    }

    /** The member a failure pass over this state would remove. */
    function PassTarget(st: ClusterState, now: Instant): (r: Option<NodeId>)
      reads this`grants, this`reports
      ensures r.Some? ==> && r.value in Ids(st.committed.members) && r.value in st.instances && r.value !in st.fenced
                          && FailureConfirmed(st, grants, reports, r.value, now)
      ensures r.None? ==>
        forall m :: m in st.committed.members && m.id in st.instances && m.id !in st.fenced
                    ==> !FailureConfirmed(st, grants, reports, m.id, now)
    {
      FirstFailed(st, grants, reports, now, st.committed.members)
    }

    /** `report_peer_health`. */
    method ReportPeerHealth(reporter: NodeId, instance: Instance, peer: NodeId, epoch: nat, reachable: bool, now: Instant)
      returns (ok: bool)
      modifies this`reports
      ensures ok <==> && reporter != peer && peer in Ids(state.committed.members) && peer != EMPTY_ID
                      && epoch == state.committed.epoch && HasLease(state, grants, reporter, now)
                      && state.instances[reporter] == instance
      ensures reports == if ok then Noted(old(reports), Probe(peer, reporter, reachable, now)) else old(reports)
    {
      ok := MayReport(state, grants, reporter, instance, peer, epoch, now);
      if !ok { return; }
      var key := (peer, reporter);
      if reachable {
        reports := reports - {key};
      } else if key in reports {
        var first := if reports[key].last + REPORT_FRESHNESS < now then now else reports[key].first;
        reports := reports[key := Report(first, now)];
      } else {
        reports := reports[key := Report(now, now)];
      }
    }

    /** `store_repair_admissions`: a whole group of finished repairs, or nothing of it. */
    method AdmitRepairs(seeds: seq<Seed>) returns (r: Result<(), Refusal>)
      requires Sound() && (forall s :: guard(s) ==> Tasked(s)) && forall s :: s in seeds ==> SeedMatches(s)
      modifies this`state
      ensures Sound() && OneStep(hash, guard, old(state), state)
      ensures r.Ok? <==> && (forall s :: s in seeds ==>
                               SeedAcceptable(s, old(state).tasks, old(state).committed.epoch, old(state).instances))
                         && guard(old(state).(tasks := StoreAll(old(state).tasks, seeds)))
      ensures state == if r.Ok? then old(state).(tasks := StoreAll(old(state).tasks, seeds)) else old(state)
    {
      ghost var desired := DesiredKeys(DerivedRanges(state.committed));
      var acceptable, tasks := StoreRepairAdmissions(state.tasks, state.committed.epoch, state.instances, seeds, desired);
      if !acceptable { return Err(Rejected); }
      ghost var before := state;
      var ok := Store(state.(tasks := tasks));
      if !ok { return Err(NotStored); }
      assert Bookkeeping(before, state);
      return Ok(());
    }

    /** The publication block of `execute_change`. `ranges` is what the executor copied, and `probed` the process that
        answered at each destination just before: both it and the registered process must be the copy's. */
    method PublishMovedRanges(expected: Identity, ranges: seq<RangeProgress>, probed: map<NodeId, Instance>)
      returns (r: Result<(), Refusal>)
      requires Sound()
      modifies this`state
      ensures Sound() && OneStep(hash, guard, old(state), state)
      ensures r.Err? ==> state == old(state)
      ensures r.Ok? ==> PublishMoved(old(state), state, expected, ranges) && DestinationsCurrent(probed, ranges)
      ensures r.Err? && DestinationsCurrent(probed, ranges) ==>
        forall st' :: PublishMoved(old(state), st', expected, ranges) ==> !guard(st')
    {
      if !DestinationsCurrent(probed, ranges) || !DestinationsCurrent(state.instances, ranges) {
        return Err(StaleDestinations);
      }
      if state.active.None? { return Err(NoActiveChange); }
      var c := state.active.value;
      if IdentityOf(c) != expected { return Err(WrongChange); }
      if !WithinTaskLimit(c.target) { return Err(TooManyTasks); }
      ghost var before := state;
      var ok := Store(PublishedWith(state, state.tasks, c.activationReady));
      if !ok { return Err(NotStored); }
      assert PublishMoved(before, state, expected, ranges);
      return Ok(());
    }

    /** The end of `execute_policy_change`: the report taken after the delay, with the old owners fenced, must verify the
        target's readiness, and the change must still be the one that was executed. */
    method PublishPolicyChange(expected: Identity, status: Status) returns (r: Result<(), Refusal>)
      requires Sound()
      modifies this`state
      ensures Sound() && OneStep(hash, guard, old(state), state)
      ensures r.Err? ==> state == old(state)
      ensures r.Ok? ==> PublishPolicy(old(state), state, expected) && PolicyReady(old(state), status)
      ensures r.Err? && PolicyReady(old(state), status) ==>
        forall st' :: PublishPolicy(old(state), st', expected) ==> !guard(st')
    {
      if state.active.None? { return Err(NoActiveChange); }
      var c := state.active.value;
      if !PolicyReadinessVerified(c.target, status) { return Err(Rejected); }
      if IdentityOf(c) != expected { return Err(WrongChange); }
      if !WithinTaskLimit(c.target) { return Err(TooManyTasks); }
      ghost var before := state;
      var ok := Store(PublishedWith(state, Rebased(state.tasks, c.target.epoch), c.activationReady));
      if !ok { return Err(NotStored); }
      assert PublishPolicy(before, state, expected);
      return Ok(());
    }

    /** The publication of `execute_failed_change`, under the state lock: every token's new owner must be covered and
        hold a current lease, and the failed node must still be fenced. */
    method PublishFailureRemoval(expected: Identity, now: Instant) returns (r: Result<(), Refusal>)
      requires Sound()
      modifies this`state
      ensures Sound() && OneStep(hash, guard, old(state), state)
      ensures r.Err? ==> state == old(state)
      ensures r.Ok? ==> PublishFailed(old(state), state, expected) && SafeToRemove(old(state), grants, now)
      ensures r.Err? && SafeToRemove(old(state), grants, now) ==>
        forall st' :: PublishFailed(old(state), st', expected) ==> !guard(st')
    {
      if state.active.None? { return Err(NoActiveChange); }
      var safe := ProveFailureCoverage(state, grants, now);
      if !safe { return Err(Rejected); }
      var c := state.active.value;
      if c.failed.None? || c.failed.value !in state.fenced { return Err(Unfenced); }
      if IdentityOf(c) != expected { return Err(WrongChange); }
      if !WithinTaskLimit(c.target) { return Err(TooManyTasks); }
      ghost var before := state;
      var survivors := state.(instances := state.instances - {c.failed.value});
      var ok := Store(PublishedWith(survivors, Tasks([], []), true));
      if !ok { return Err(NotStored); }
      assert PublishFailed(before, state, expected);
      return Ok(());
    }

    /** The publication of `execute_direct_merge`, with the admissions its proof over an earlier snapshot carried over:
        nothing the proof rested on may have changed since. */
    method PublishMergedChange(expected: Identity, snapshot: ClusterState, carried: seq<Admission>)
      returns (r: Result<(), Refusal>)
      requires Sound()
      modifies this`state
      ensures Sound() && OneStep(hash, guard, old(state), state)
      ensures r.Err? ==> state == old(state)
      ensures r.Ok? ==> && PublishMerged(old(state), state, expected, carried)
                        && old(state).committed == snapshot.committed && old(state).instances == snapshot.instances
                        && old(state).tasks.admissions == snapshot.tasks.admissions && old(state).fenced == snapshot.fenced
      ensures r.Err? && SameProofBasis(old(state), snapshot) ==>
        forall st' :: PublishMerged(old(state), st', expected, carried) ==> !guard(st')
    {
      if state.active.None? { return Err(NoActiveChange); }
      var c := state.active.value;
      if !SameProofBasis(state, snapshot) { return Err(Rejected); }
      if IdentityOf(c) != expected { return Err(WrongChange); }
      if !WithinTaskLimit(c.target) { return Err(TooManyTasks); }
      ghost var before := state;
      var ok := Store(PublishedWith(state, Tasks(carried, []), true));
      if !ok { return Err(NotStored); }
      assert PublishMerged(before, state, expected, carried);
      return Ok(());
    }

    /** `recover_pending_change_failure`: a published join that was never activated is undone when its new member fails,
        provided every source still holds what it gave away and, when asked, says so. */
    method RecoverFailedJoin(failed: NodeId, expected: Identity, processes: map<NodeId, Instance>,
                             watermarks: map<RangeMove, nat>, id: ChangeId)
      returns (r: Result<(), Refusal>)
      requires Sound()
      modifies this`state
      ensures Sound() && OneStep(hash, guard, old(state), state)
      ensures r.Err? ==> state == old(state)
      ensures r.Ok? ==> && Recovers(hash, old(state), state, failed, id) && Expected(old(state), expected)
                        && SourcesAnswer(old(state), processes, watermarks)
      ensures r.Ok? ==> && old(state).active.Some? && old(state).active.value.base.Some?
                        && IdentityOf(old(state).active.value) == expected
                        && (forall m :: m in old(state).active.value.base.value.members ==>
                              && m.id in processes && m.id in old(state).instances
                              && processes[m.id] == old(state).instances[m.id])
                        && forall x :: x in old(state).active.value.ranges ==>
                             x.move in watermarks && watermarks[x.move] == x.watermark
      ensures r.Err? && Expected(old(state), expected) && SourcesAnswer(old(state), processes, watermarks) ==>
        forall st' :: Recovers(hash, old(state), st', failed, id) ==> !guard(st')
    {
      if !Expected(state, expected) { return Err(WrongChange); }
      if !SourcesAnswer(state, processes, watermarks) { return Err(Rejected); }
      ghost var before := state;
      var recovery := PlanRecovery(hash, state, failed, id);
      if recovery.Err? { return Err(recovery.error); }
      var ok := Store(Recovered(state, failed, recovery.value));
      if !ok { return Err(NotStored); }
      assert Recovers(hash, before, state, failed, id);
      return Ok(());
    }

    /** `run_pending_change_failure_pass` while a published change is not activated, whose confirmation takes a lease
        duration: the probes are noted, and a join is undone only for a new member confirmed down by them. */
    method RunPendingChangePass(probes: seq<Ping>, now: Instant, processes: map<NodeId, Instance>,
                                watermarks: map<RangeMove, nat>, id: ChangeId)
      returns (r: Result<Option<NodeId>, Refusal>)
      requires Sound() && ActivationPending(state) && PassValid(PassOf(state, probes, now))
      modifies this`state, this`outages
      ensures Sound() && OneStep(hash, guard, old(state), state)
      ensures !(r.Ok? && r.value.Some?) ==>
        state == old(state) && outages == AfterPass(old(outages), PassOf(old(state), probes, now))
      ensures r.Ok? && r.value.Some? ==>
        && LongDown(AfterPass(old(outages), PassOf(old(state), probes, now)), probes, r.value.value, leaseNanos, now)
        && Recovers(hash, old(state), state, r.value.value, id) && SourcesAnswer(old(state), processes, watermarks)
        && outages == map[]
      ensures r == Ok(None) ==>
        forall n :: !LongDown(AfterPass(old(outages), PassOf(old(state), probes, now)), probes, n, leaseNanos, now)
    {
      var confirmed;
      outages, confirmed := Scan(outages, PassOf(state, probes, now), leaseNanos);
      if confirmed.None? { return Ok(None); }
      var recovered := RecoverFailedJoin(confirmed.value, IdentityOf(state.active.value), processes, watermarks, id);
      if recovered.Err? { return Err(recovered.error); }
      outages := map[];
      return Ok(confirmed);
    }

    /** `register_node`: a committed node keeps its process; a joining one may bring a new one and loses its fence. */
    method RegisterNode(node: NodeId, instance: Instance) returns (r: Result<(), Refusal>)
      requires Sound()
      modifies this`state
      ensures Sound() && OneStep(hash, guard, old(state), state)
      ensures r.Err? ==> state == old(state)
      ensures r.Ok? ==> node in state.instances && state.instances[node] == instance
      ensures r.Ok? ==> state == old(state) || Register(old(state), state, node, instance)
      ensures r.Err? ==> forall st' :: Register(old(state), st', node, instance) ==> !guard(st')
      ensures node in Ids(old(state).committed.members) && node in old(state).instances ==> state == old(state)
    {
      if node == EMPTY_ID || instance == 0 { return Err(Rejected); }
      var committed := node in Ids(state.committed.members);
      var pending := && state.active.Some? && !IsTerminal(state.active.value.phase)
                     && node in Ids(state.active.value.target.members);
      if !committed && !pending { return Err(Rejected); }
      if committed && node in state.fenced { return Err(Rejected); }
      if node in state.instances {
        if state.instances[node] == instance { return Ok(()); }
        if committed { return Err(Rejected); }
      }
      ghost var before := state;
      var ok := Store(state.(fenced := if committed then state.fenced else state.fenced - {node},
                             instances := state.instances[node := instance]));
      if !ok { return Err(NotStored); }
      assert Register(before, state, node, instance);
      return Ok(());
    }

    /** `renew_node_lease`: a grant is given exactly to a current, unfenced process of a member at the committed epoch,
        and never while an activation is pending. The answer names the followers that are admitted for all this owner
        needs them for. */
    method RenewNodeLease(node: NodeId, instance: Instance, epoch: nat, now: Instant)
      returns (r: Option<map<NodeId, Instance>>)
      requires Sound()
      modifies this`grants
      ensures r.Some? <==> MayRenew(state, node, instance, epoch)
      ensures grants == if r.Some? then old(grants)[node := Grant(instance, epoch, now + leaseNanos)] else old(grants)
      ensures r.Some? ==> forall later: Instant :: HasLease(state, grants, node, later) <==> later < now + leaseNanos
      ensures r.Some? ==> forall n :: n in r.value <==> FullyAdmitted(state, node, n)
      ensures r.Some? ==> forall n :: n in r.value ==> n in state.instances && r.value[n] == state.instances[n]
    {
      if !MayRenew(state, node, instance, epoch) { return None; }
      var admitted := AdmittedFollowers(state, node);
      grants := grants[node := Grant(instance, epoch, now + leaseNanos)];
      return Some(admitted);
    }
  }
}
