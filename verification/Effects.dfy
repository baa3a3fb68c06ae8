/**
 What the coordinator's conditions and steps amount to, said in terms of members, owners, processes and the guard's own
 answers: what a recovery restores, what a merge that was prepared can later prove, what the guard tells apart, when a
 change may be activated, and what the limit on tasks is for.
 */
module Effects {
  import opened Ring
  import opened Topology
  import opened Canonical
  import opened Placement
  import opened Ranges
  import opened MigrationPlan
  import opened Cluster
  import opened Removal
  import opened Merge
  import opened Coordinator
  import opened Storable

  // ----- Phases -----

  /** Another change can begin exactly when none is there or the last one was completed or aborted. */
  lemma EndedChangesMakeRoom(st: ClusterState)
    ensures Idle(st) <==> st.active.None? || st.active.value.phase in {Completed, Aborted}
  {
  }

  /** Setting a phase sets nothing else, but that an ended change is no longer blocked. */
  lemma PhaseSetsOnlyThePhase(st: ClusterState, p: Phase)
    requires st.active.Some?
    ensures var st' := WithPhase(st, p);
            && st'.active.Some? && st'.active.value == st.active.value.(phase := p)
            && st' == st.(active := st'.active, blockReason := st'.blockReason)
            && st'.blockReason == if p in {Completed, Aborted} then "" else st.blockReason
  {
  }

  /** A change becomes ready for activation only as a published one. */
  lemma OnlyPublishedActivates(h: VnodeHash, st: ClusterState, st': ClusterState)
    requires Step(h, st, st') && st'.active.Some? && st'.active.value.activationReady
    ensures || (st.active.Some? && st.active.value.activationReady && st.active.value.id == st'.active.value.id)
            || st'.active.value.phase == Published
  {
    if Progress(st, st') {
      ProgressActivates(st, st');
    } else if Planning(h, st, st') {
      PlannedIsNotReady(h, st, st');
    } else if f, r :| Recover(h, st, st', f, r) {
      RecoveredIsNotReady(h, st, st', f, r);
    } else {
      PublicationShape(h, st, st');
    }
  }

  lemma RecoveredIsNotReady(h: VnodeHash, st: ClusterState, st': ClusterState, f: NodeId, r: Change)
    requires Recover(h, st, st', f, r)
    ensures st'.active.Some? && !st'.active.value.activationReady
  {
    PlanFacts(h, st.committed, st.active.value.base.value.members, st.committed.config, r);
  }

  lemma PlannedIsNotReady(h: VnodeHash, st: ClusterState, st': ClusterState)
    requires Planning(h, st, st')
    ensures st'.active.Some? && !st'.active.value.activationReady
  {
    if m, g, c :| Begin(h, st, st', m, g, c) {
      PlanFacts(h, st.committed, m, g, c);
    } else {
      var f, c :| FenceFailed(h, st, st', f, c);
      PlanFacts(h, st.committed, Remaining(st.committed.members, {f}), st.committed.config, c);
    }
  }

  lemma ProgressActivates(st: ClusterState, st': ClusterState)
    requires Progress(st, st') && st'.active.Some? && st'.active.value.activationReady
    ensures || (st.active.Some? && st.active.value.activationReady && st.active.value.id == st'.active.value.id)
            || st'.active.value.phase == Published
  {
    if p :| SetPhase(st, st', p) {
    } else if SetActivationReady(st, st') {
    } else if ResetAttempt(st, st') {
    } else if Bookkeeping(st, st') {
    } else {
      var n, i :| Register(st, st', n, i);
    }
  }

  // ----- What the guard tells apart -----

  /** A superseding change is valid with exactly this kind of predecessor beside it. */
  lemma PredecessorIsChecked(h: VnodeHash, st: ClusterState, s: Option<Change>)
    requires Validate(h, st) && st.active.Some? && st.active.value.supersedes.Some?
    ensures Validate(h, st.(superseded := s))
       <==> && s.Some? && st.active.value.supersedes == Some(s.value.id) && s.value.phase == Published
            && s.value.target.epoch == st.active.value.baseEpoch
  {
    var st', c := st.(superseded := s), st.active.value;
    SameTasksStayValid(st, st');
    SameNamesStayValid(st, st');
    assert ChangeValid(h, st', c) <==> HasPredecessor(st', c);
  }

  /** A change leads to a valid topology on the committed ring's own hash, one epoch on; its base is the committed one. */
  lemma TargetIsChecked(h: VnodeHash, st: ClusterState, c: Change)
    requires Validate(h, st) && c.supersedes == None && BeforePublication(c.phase)
    ensures Validate(h, st.(active := Some(c)))
       <==> && Valid(h, c.target) && c.target.seed == st.committed.seed && c.target.vnodes == st.committed.vnodes
            && c.baseEpoch == st.committed.epoch
            && c.target.epoch == (if c.baseEpoch < MAX_EPOCH then c.baseEpoch + 1 else MAX_EPOCH)
            && (c.base == None || c.base == Some(st.committed))
            && |c.ranges| <= MAX_MIGRATION_RANGES && |c.obligations| <= MAX_REPLICA_OBLIGATIONS
  {
    ActiveEditIsValid(h, st, c, st.blockReason);
    TargetFits(h, st, c);
  }

  lemma TargetFits(h: VnodeHash, st: ClusterState, c: Change)
    requires Valid(h, st.committed) && c.supersedes == None && BeforePublication(c.phase)
    ensures ChangeValid(h, st, c)
       <==> && Valid(h, c.target) && c.target.seed == st.committed.seed && c.target.vnodes == st.committed.vnodes
            && c.baseEpoch == st.committed.epoch
            && c.target.epoch == (if c.baseEpoch < MAX_EPOCH then c.baseEpoch + 1 else MAX_EPOCH)
            && (c.base == None || c.base == Some(st.committed))
            && |c.ranges| <= MAX_MIGRATION_RANGES && |c.obligations| <= MAX_REPLICA_OBLIGATIONS
  {
  }

  /** Names are never empty, nor are processes. */
  lemma NamesAreChecked(h: VnodeHash, st: ClusterState, n: NodeId, i: Instance)
    requires Validate(h, st)
    ensures Validate(h, st.(fenced := st.fenced + {n})) <==> n != EMPTY_ID
    ensures Validate(h, st.(instances := st.instances[n := i])) <==> n != EMPTY_ID && i != 0
    ensures Validate(h, st.(stopConfirmations := st.stopConfirmations[n := {i}])) <==> n != EMPTY_ID && i != 0
    ensures !Validate(h, st.(stopConfirmations := st.stopConfirmations[n := {}]))
  {
    var fenced, registered := st.(fenced := st.fenced + {n}), st.(instances := st.instances[n := i]);
    var stopped := st.(stopConfirmations := st.stopConfirmations[n := {i}]);
    var empty := st.(stopConfirmations := st.stopConfirmations[n := {}]);
    NameEditIsValid(h, st, fenced);
    NameEditIsValid(h, st, registered);
    NameEditIsValid(h, st, stopped);
    NameEditIsValid(h, st, empty);
    FencesAreChecked(st, n);
    ProcessesAreChecked(st, n, i);
    StopsAreChecked(st, n, i);
  }

  lemma NameEditIsValid(h: VnodeHash, st: ClusterState, st': ClusterState)
    requires Validate(h, st)
    requires st' == st.(fenced := st'.fenced, instances := st'.instances, stopConfirmations := st'.stopConfirmations)
    ensures Validate(h, st') <==> IdentitiesValid(st')
  {
    SameTasksStayValid(st, st');
    if st.active.Some? { SameChangeStaysValid(h, st, st', st.active.value); }
  }

  lemma FencesAreChecked(st: ClusterState, n: NodeId)
    requires IdentitiesValid(st)
    ensures IdentitiesValid(st.(fenced := st.fenced + {n})) <==> n != EMPTY_ID
  {
  }

  lemma ProcessesAreChecked(st: ClusterState, n: NodeId, i: Instance)
    requires IdentitiesValid(st)
    ensures IdentitiesValid(st.(instances := st.instances[n := i])) <==> n != EMPTY_ID && i != 0
  {
    var m := st.instances[n := i];
    assert n in m && m[n] == i;
  }

  lemma StopsAreChecked(st: ClusterState, n: NodeId, i: Instance)
    requires IdentitiesValid(st)
    ensures IdentitiesValid(st.(stopConfirmations := st.stopConfirmations[n := {i}])) <==> n != EMPTY_ID && i != 0
    ensures !IdentitiesValid(st.(stopConfirmations := st.stopConfirmations[n := {}]))
  {
    var m, e := st.stopConfirmations[n := {i}], st.stopConfirmations[n := {}];
    assert n in m && m[n] == {i} && n in e && e[n] == {};
  }

  // ----- The limit on tasks -----

  ghost predicate AllDiffer(keys: seq<TaskKey>) {
    forall i, j :: 0 <= i < j < |keys| ==> keys[i] != keys[j]
  }

  lemma {:induction false} DesiredDiffer(ranges: seq<DerivedRange>)
    requires forall i, j :: 0 <= i < j < |ranges| ==> ranges[i].end != ranges[j].end
    requires forall r :: r in ranges ==> NoRepeats(r.followers)
    ensures AllDiffer(DesiredKeys(ranges))
  {
    if ranges != [] {
      var init, last := ranges[..|ranges| - 1], ranges[|ranges| - 1];
      DesiredDiffer(init);
      var a, b := DesiredKeys(init), KeysOf(last);
      forall i | 0 <= i < |a| ensures a[i].end != last.end {
        DesiredElements(init, a[i]);
      }
    }
  }

  lemma TargetKeysDiffer(h: VnodeHash, target: Snapshot)
    requires Valid(h, target) && HasPlacement(target)
    ensures AllDiffer(DesiredKeys(DerivedRanges(target)))
  {
    ValidIsSorted(h, target);
    BoundariesAreTokens(target);
    forall r | r in DerivedRanges(target) ensures NoRepeats(r.followers) {
      RangeFollowersDiffer(h, target, r);
    }
    DesiredDiffer(DerivedRanges(target));
  }

  lemma SettledIsFull(repairs: seq<Repair>, desired: seq<TaskKey>)
    requires AllDiffer(desired) && forall k :: k in desired ==> HasRepair(repairs, k)
    ensures |repairs| >= |desired|
  {
    var keys := seq(|repairs|, i requires 0 <= i < |repairs| => RepairKey(repairs[i]));
    forall k | k in desired ensures k in keys {
      var r :| r in repairs && RepairKey(r) == k;
      var i :| 0 <= i < |repairs| && repairs[i] == r;
      assert keys[i] == k;
    }
    KeysFit(desired, keys);
  }

  /** A publication's tasks pass the guard exactly if its placement needs no more of them than the limit allows. */
  lemma TaskLimitIsTheGuards(h: VnodeHash, st: ClusterState, target: Snapshot, t: Tasks)
    requires Valid(h, target) && HasPlacement(target) && DistinctAdmissions(t.admissions) && DistinctRepairs(t.repairs)
    requires forall a :: a in t.admissions ==> a.instance != 0 && a.digest != 0
    ensures ReplicaMetadataValid(st.(committed := target, tasks := ReconciledFor(st, target, t))) <==> WithinTaskLimit(target)
  {
    var desired := DesiredKeys(DerivedRanges(target));
    if WithinTaskLimit(target) {
      ReconciledIsStorable(st, target, t);
    } else {
      TargetKeysDiffer(h, target);
      ReconcileSettles(t, target.epoch, desired, st.instances);
      SettledIsFull(ReconciledFor(st, target, t).repairs, desired);
    }
  }

  // ----- Recovery -----

  lemma {:induction false} SurvivorsAreRemaining(members: seq<Member>, f: NodeId, rest: seq<Member>)
    requires MembersSorted(members) && MembersSorted(rest)
    ensures SurvivorsAre(members, f, rest) <==> rest == Remaining(members, {f})
  {
    RemainingIsSorted(members, {f});
    RemainingSurvive(members, f);
    if SurvivorsAre(members, f, rest) { SameMembers(rest, Remaining(members, {f})); }
  }

  lemma {:induction false} RemainingSurvive(members: seq<Member>, f: NodeId)
    requires forall m :: m in Remaining(members, {f}) <==> m in members && m.id !in {f}
    ensures SurvivorsAre(members, f, Remaining(members, {f}))
  {
  }

  /** A recovery restores the members and the placement from before the join: every token goes back to the owner it had,
      the failed node is no member any more, and it is fenced and forgotten. */
  lemma RecoveryRestoresPlacement(h: VnodeHash, st: ClusterState, st': ClusterState, f: NodeId, r: Change, t: Token)
    requires Validate(h, st) && Recover(h, st, st', f, r)
    requires st.active.value.base.value.seed == st.committed.seed && st.active.value.base.value.vnodes == st.committed.vnodes
    ensures var base := st.active.value.base.value;
            && st'.committed.members == base.members == Remaining(st.committed.members, {f})
            && st'.committed.config == st.committed.config && st'.committed.epoch == st.committed.epoch + 1
            && st'.committed.assignments == base.assignments && |base.assignments| > 0
            && Owner(st'.committed.assignments, t) == Owner(base.assignments, t)
            && f in Ids(st.committed.members) && f !in Ids(st'.committed.members)
            && f in st'.fenced && f !in st'.instances
  {
    var base := st.active.value.base.value;
    PlanFacts(h, st.committed, base.members, st.committed.config, r);
    PlanOffers(h, st.committed, base.members, st.committed.config, r);
    SortedIsFixed(base.members);
    SurvivorsAreRemaining(st.committed.members, f, base.members);
    RecoveredIsMember(h, st.committed, base, f, r);
    ValidIsSorted(h, base);
  }

  /** And every source it falls back to still runs the process that gave the range away, verified and uncleaned. */
  lemma RecoverySourcesHold(h: VnodeHash, st: ClusterState, st': ClusterState, f: NodeId, r: Change, x: RangeProgress)
    requires Recover(h, st, st', f, r) && x in st.active.value.ranges
    ensures x.move.destination == f && x.verified && !x.sourceCleaned && x.sourceInstance != 0
    ensures x.move.source in st.instances && st.instances[x.move.source] == x.sourceInstance
    ensures st.active.value.phase == Published && !st.active.value.activationReady
  {
  }

  /** Moved ranges are published only to the processes they were copied to. */
  lemma MovedRangesAreWhereCopied(st: ClusterState, st': ClusterState, e: Identity, ranges: seq<RangeProgress>,
                                   x: RangeProgress)
    requires PublishMoved(st, st', e, ranges) && x in ranges
    ensures x.destinationInstance != 0 && x.move.destination in st.instances
    ensures st.instances[x.move.destination] == x.destinationInstance
  {
  }

  // ----- Preparing a direct merge -----

  /** Every member is registered and unfenced, and every follower of every range is admitted. */
  ghost predicate FullyReplicated(st: ClusterState)
    requires HasPlacement(st.committed)
  {
    && (forall m :: m in st.committed.members ==> m.id in st.instances && m.id !in st.fenced)
    && forall r, f :: r in DerivedRanges(st.committed) && f in r.followers ==> AdmissionFor(st, r, f).Some?
  }

  lemma FollowersAreMembers(h: VnodeHash, s: Snapshot, r: DerivedRange, f: NodeId)
    requires Valid(h, s) && HasPlacement(s) && r in DerivedRanges(s) && (f in r.followers || f == r.owner)
    ensures f in Ids(s.members)
  {
    var i :| 0 <= i < |DerivedRanges(s)| && DerivedRanges(s)[i] == r;
    var replicas := Replicas(s, Boundaries(s)[i]);
    ReplicaCount(h, s, Boundaries(s)[i]);
    ReplicasNotEmpty(s, Boundaries(s)[i]);
    assert f in replicas;
    assert f in Elements(replicas);
  }

  /** An admitted follower of a range is one of its followers. */
  lemma AdmittedIsFollower(st: ClusterState, p: DerivedRange, f: NodeId)
    requires Sorted(st.committed.assignments) && HasPlacement(st.committed) && p in DerivedRanges(st.committed)
    requires TasksValid(st.tasks, st.committed.epoch, DesiredKeys(DerivedRanges(st.committed)))
    requires AdmissionFor(st, p, f).Some?
    ensures f in p.followers
  {
    var a := AdmissionFor(st, p, f).value;
    DesiredElements(DerivedRanges(st.committed), KeyOf(a));
    DerivedRangesDistinctEnds(st.committed);
  }

  /** The follower could come to hold all the parts. */
  ghost predicate CouldHold(parts: seq<DerivedRange>, f: NodeId) {
    forall p :: p in parts ==> p.owner == f || f in p.followers
  }

  lemma CandidateMeansCouldHold(st: ClusterState, parts: seq<DerivedRange>, f: NodeId)
    requires Sorted(st.committed.assignments) && HasPlacement(st.committed) && FullyReplicated(st)
    requires TasksValid(st.tasks, st.committed.epoch, DesiredKeys(DerivedRanges(st.committed)))
    requires f in Ids(st.committed.members) && forall p :: p in parts ==> p in DerivedRanges(st.committed)
    ensures IsCandidate(st, parts, f) <==> CouldHold(parts, f)
  {
    forall p | p in parts ensures HoldsPart(st, p, f) <==> p.owner == f || f in p.followers {
      if AdmissionFor(st, p, f).Some? { AdmittedIsFollower(st, p, f); }
    }
  }

  lemma CoveredMeansSuccessor(st: ClusterState, p: DerivedRange, owner: NodeId)
    requires HasPlacement(st.committed) && FullyReplicated(st) && p in DerivedRanges(st.committed)
    ensures PartCovered(st, p, owner) <==> p.owner == owner || (p.followers != [] && p.followers[0] == owner)
  {
  }

  /** One range of a target, as a merge would have it. */
  ghost predicate RangeMergeable(st: ClusterState, r: DerivedRange, needed: nat)
    requires HasPlacement(st.committed)
  {
    RangeCovered(st, DerivedRanges(st.committed), r) && NeededFollowersHold(st, DerivedRanges(st.committed), r, needed)
  }

  ghost predicate RangePreparable(base: Snapshot, r: DerivedRange, needed: nat)
    requires HasPlacement(base)
  {
    var parts := Constituents(DerivedRanges(base), r);
    && parts != [] && |r.followers| >= needed
    && (forall p :: p in parts ==> p.owner == r.owner || (p.followers != [] && p.followers[0] == r.owner))
    && forall f :: f in Take(r.followers, needed) ==> CouldHold(parts, f)
  }

  lemma RangeAgrees(h: VnodeHash, st: ClusterState, target: Snapshot, r: DerivedRange, needed: nat)
    requires Valid(h, st.committed) && Valid(h, target) && HasPlacement(st.committed) && HasPlacement(target)
    requires FullyReplicated(st) && TasksValid(st.tasks, st.committed.epoch, DesiredKeys(DerivedRanges(st.committed)))
    requires r in DerivedRanges(target) && forall m :: m in target.members ==> m in st.committed.members
    ensures RangeMergeable(st, r, needed) <==> RangePreparable(st.committed, r, needed)
  {
    OwnerAgrees(st, r);
    FollowersAgree(h, st, target, r, needed);
  }

  lemma {:induction false} FollowersAgree(h: VnodeHash, st: ClusterState, target: Snapshot, r: DerivedRange, needed: nat)
    requires Valid(h, st.committed) && Valid(h, target) && HasPlacement(st.committed) && HasPlacement(target)
    requires FullyReplicated(st) && TasksValid(st.tasks, st.committed.epoch, DesiredKeys(DerivedRanges(st.committed)))
    requires r in DerivedRanges(target) && forall m :: m in target.members ==> m in st.committed.members
    ensures var parts := Constituents(DerivedRanges(st.committed), r);
            NeededFollowersHold(st, DerivedRanges(st.committed), r, needed) <==>
              |r.followers| >= needed && forall f :: f in Take(r.followers, needed) ==> CouldHold(parts, f)
  {
    var parts := Constituents(DerivedRanges(st.committed), r);
    forall f | f in Take(r.followers, needed) ensures IsCandidate(st, parts, f) <==> CouldHold(parts, f) {
      FollowerAgrees(h, st, target, r, f);
    }
  }

  lemma {:induction false} FollowerAgrees(h: VnodeHash, st: ClusterState, target: Snapshot, r: DerivedRange, f: NodeId)
    requires Valid(h, st.committed) && Valid(h, target) && HasPlacement(st.committed) && HasPlacement(target)
    requires FullyReplicated(st) && TasksValid(st.tasks, st.committed.epoch, DesiredKeys(DerivedRanges(st.committed)))
    requires r in DerivedRanges(target) && f in r.followers && forall m :: m in target.members ==> m in st.committed.members
    ensures IsCandidate(st, Constituents(DerivedRanges(st.committed), r), f)
       <==> CouldHold(Constituents(DerivedRanges(st.committed), r), f)
  {
    ValidIsSorted(h, st.committed);
    FollowersAreMembers(h, target, r, f);
    CandidateMeansCouldHold(st, Constituents(DerivedRanges(st.committed), r), f);
  }

  lemma {:induction false} OwnerAgrees(st: ClusterState, r: DerivedRange)
    requires HasPlacement(st.committed) && FullyReplicated(st)
    ensures var parts := Constituents(DerivedRanges(st.committed), r);
            RangeCovered(st, DerivedRanges(st.committed), r) <==>
              parts != [] && forall p :: p in parts ==> p.owner == r.owner || (p.followers != [] && p.followers[0] == r.owner)
  {
    var parts := Constituents(DerivedRanges(st.committed), r);
    forall p | p in parts
      ensures PartCovered(st, p, r.owner) <==> p.owner == r.owner || (p.followers != [] && p.followers[0] == r.owner)
    {
      CoveredMeansSuccessor(st, p, r.owner);
    }
  }

  /** A change is prepared as a direct merge exactly if it only removes members and, were every follower admitted, its
      merge could be proved: preparation never promises a merge that no amount of seeding can deliver. */
  lemma PreparedMergeIsProvable(h: VnodeHash, st: ClusterState, target: Snapshot)
    requires Valid(h, st.committed) && Valid(h, target) && HasPlacement(st.committed) && HasPlacement(target)
    requires FullyReplicated(st) && TasksValid(st.tasks, st.committed.epoch, DesiredKeys(DerivedRanges(st.committed)))
    ensures CanPrepareDirectMerge(st.committed, target)
       <==> && |target.members| < |st.committed.members| && (forall m :: m in target.members ==> m in st.committed.members)
            && target.config == st.committed.config && Mergeable(st, target)
  {
    var needed := RequiredMergeFollowers(target);
    if forall m :: m in target.members ==> m in st.committed.members {
      forall r | r in DerivedRanges(target)
        ensures RangeMergeable(st, r, needed) <==> RangePreparable(st.committed, r, needed)
      {
        RangeAgrees(h, st, target, r, needed);
      }
      PreparationIsPerRange(st.committed, target);
      MergeIsPerRange(st, target);
    }
  }

  lemma MergeIsPerRange(st: ClusterState, target: Snapshot)
    requires HasPlacement(st.committed) && HasPlacement(target)
    ensures Mergeable(st, target)
       <==> forall r :: r in DerivedRanges(target) ==> RangeMergeable(st, r, RequiredMergeFollowers(target))
  {
  }

  lemma PreparationIsPerRange(base: Snapshot, target: Snapshot)
    requires HasPlacement(base) && HasPlacement(target)
    ensures CanPrepareDirectMerge(base, target)
       <==> && |target.members| < |base.members| && target.config == base.config
            && (forall m :: m in target.members ==> m in base.members)
            && forall r :: r in DerivedRanges(target) ==> RangePreparable(base, r, RequiredMergeFollowers(target))
  {
    forall r | r in DerivedRanges(target)
      ensures CanPrepareRange(DerivedRanges(base), r, RequiredMergeFollowers(target))
         <==> RangePreparable(base, r, RequiredMergeFollowers(target))
    {
      PartsFirst(base, r, RequiredMergeFollowers(target));
    }
  }

  lemma PartsFirst(base: Snapshot, r: DerivedRange, needed: nat)
    requires HasPlacement(base)
    ensures CanPrepareRange(DerivedRanges(base), r, needed) <==> RangePreparable(base, r, needed)
  {
  }

  /** A begun change that can be a direct merge is marked as one and moves nothing; any other moves exactly what its plan
      says, from scratch. */
  lemma BegunChangesMove(h: VnodeHash, st: ClusterState, st': ClusterState, m: seq<Member>, g: Config, c: Change)
    requires Begin(h, st, st', m, g, c)
    ensures var begun := st'.active.value;
            && st'.active.Some? && begun.phase == Planned && begun.base == Some(st.committed) && begun.target == c.target
            && (begun.directMerge <==> CanPrepareDirectMerge(st.committed, c.target))
            && (begun.directMerge ==> begun.ranges == [])
            && (!begun.directMerge ==> AllFresh(begun.ranges, Moves(st.committed, c.target)))
  {
    PlanIsFresh(h, st.committed, m, g, c);
  }

  lemma PlanIsFresh(h: VnodeHash, committed: Snapshot, m: seq<Member>, g: Config, c: Change)
    requires IsPlan(h, committed, m, g, c)
    ensures c.phase == Planned && c.base == Some(committed) && !c.directMerge
    ensures AllFresh(c.ranges, Moves(committed, c.target))
  {
  }

  predicate AllFresh(ranges: seq<RangeProgress>, moves: seq<RangeMove>) {
    |ranges| == |moves| && forall i :: 0 <= i < |ranges| ==> Fresh(ranges[i], moves[i])
  }

  /** Nothing of the move has been done. */
  predicate Fresh(r: RangeProgress, move: RangeMove) {
    && r.move == move && r.sourceInstance == 0 && r.destinationInstance == 0 && !r.sourceCleaned && r.records == 0
    && r.watermark == 0 && !r.verified
  }

  /** Starting over leaves every move as a new plan would. */
  lemma ResetIsFresh(st: ClusterState, i: nat)
    requires st.active.Some? && i < |st.active.value.ranges|
    ensures |WithReset(st).active.value.ranges| == |st.active.value.ranges|
    ensures Fresh(WithReset(st).active.value.ranges[i], st.active.value.ranges[i].move)
  {
  }
}
