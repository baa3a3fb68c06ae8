/**
 The guard refuses no write the coordinator means to make. Each durable step from a valid state leaves a valid state: a
 recovery, the four publications, activation, registration and fencing always, and setting a phase or starting over
 exactly when publication is not undone.
 */
module Storable {
  import opened Ring
  import opened Topology
  import opened Canonical
  import opened Placement
  import opened Ranges
  import opened MigrationPlan
  import opened Cluster
  import opened Removal
  import opened Merge
  import opened Coordinator

  // ----- What an edit leaves valid -----

  lemma SameTasksStayValid(st: ClusterState, st': ClusterState)
    requires ReplicaMetadataValid(st) && st'.tasks == st.tasks && st'.committed == st.committed
    ensures ReplicaMetadataValid(st')
  {
  }

  lemma SameNamesStayValid(st: ClusterState, st': ClusterState)
    requires IdentitiesValid(st) && st'.stopConfirmations == st.stopConfirmations
    requires st'.instances == st.instances && st'.fenced == st.fenced
    ensures IdentitiesValid(st')
  {
  }

  lemma SameChangeStaysValid(h: VnodeHash, st: ClusterState, st': ClusterState, c: Change)
    requires ChangeValid(h, st, c) && st'.committed == st.committed && st'.superseded == st.superseded
    ensures ChangeValid(h, st', c)
  {
  }

  /** An edit of the active change alone is valid if and only if the change is. */
  lemma ActiveEditIsValid(h: VnodeHash, st: ClusterState, c: Change, reason: string)
    requires Validate(h, st)
    ensures var st' := st.(active := Some(c), blockReason := reason);
            Validate(h, st') <==> ChangeValid(h, st, c)
  {
    var st' := st.(active := Some(c), blockReason := reason);
    SameTasksStayValid(st, st');
    SameNamesStayValid(st, st');
    if ChangeValid(h, st, c) { SameChangeStaysValid(h, st, st', c); }
    if ChangeValid(h, st', c) { SameChangeStaysValid(h, st', st, c); }
  }

  // ----- Small edits -----

  /** A phase can be set if and only if the change stays on its side of publication. */
  lemma PhaseIsStorable(h: VnodeHash, st: ClusterState, p: Phase)
    requires Validate(h, st) && EpochsConsecutive(st) && st.active.Some?
    ensures Validate(h, WithPhase(st, p)) <==> (p in {Published, CleaningUp, Completed} <==> IsPublished(st))
  {
    var c := st.active.value;
    ActiveEditIsValid(h, st, c.(phase := p), WithPhase(st, p).blockReason);
    PhaseFits(h, st, c, p);
  }

  lemma PhaseFits(h: VnodeHash, st: ClusterState, c: Change, p: Phase)
    requires ChangeValid(h, st, c) && c.target.epoch == c.baseEpoch + 1
    ensures ChangeValid(h, st, c.(phase := p))
       <==> (p in {Published, CleaningUp, Completed} <==> c.phase in {Published, CleaningUp, Completed})
  {
  }

  lemma ActivationIsStorable(h: VnodeHash, st: ClusterState)
    requires Validate(h, st) && st.active.Some?
    ensures Validate(h, WithActivation(st))
  {
    ActiveEditIsValid(h, st, WithActivation(st).active.value, "");
  }

  /** An attempt can start over if and only if it has not been published. */
  lemma ResetIsStorable(h: VnodeHash, st: ClusterState)
    requires Validate(h, st) && EpochsConsecutive(st) && st.active.Some?
    ensures Validate(h, WithReset(st)) <==> !IsPublished(st)
  {
    var c := WithReset(st).active.value;
    ActiveEditIsValid(h, st, c, st.blockReason);
    PhaseFits(h, st, st.active.value, CopyingSnapshot);
    ResetFits(h, st);
  }

  lemma ResetFits(h: VnodeHash, st: ClusterState)
    requires st.active.Some?
    ensures ChangeValid(h, st, WithReset(st).active.value)
       <==> ChangeValid(h, st, st.active.value.(phase := CopyingSnapshot))
  {
  }

  /** Starting over forgets every copy: the moves stay, but no range names a process or counts as verified or cleaned, so
      the change cannot be published before it is copied again. */
  lemma ResetForgetsCopies(st: ClusterState)
    requires st.active.Some?
    ensures var before, after := st.active.value, WithReset(st).active.value;
            && after == before.(ranges := after.ranges, phase := CopyingSnapshot) && |after.ranges| == |before.ranges|
            && (forall i :: 0 <= i < |after.ranges| ==>
                  && after.ranges[i].move == before.ranges[i].move
                  && !after.ranges[i].verified && !after.ranges[i].sourceCleaned
                  && after.ranges[i].watermark == 0 && after.ranges[i].records == 0)
            && (after.ranges != [] ==> !DestinationsCurrent(st.instances, after.ranges) && !SourcesIntact(st, after, 0))
            && forall failed :: after.ranges != [] ==> !SourcesIntact(st, after, failed)
  {
    var after := WithReset(st).active.value;
    if after.ranges != [] { assert after.ranges[0] in after.ranges; }
  }

  lemma RegistrationIsStorable(h: VnodeHash, st: ClusterState, st': ClusterState, n: NodeId, i: Instance)
    requires Validate(h, st) && Register(st, st', n, i)
    ensures Validate(h, st')
  {
    SameTasksStayValid(st, st');
    if st.active.Some? { SameChangeStaysValid(h, st, st', st.active.value); }
    RegisteredNamesAreValid(st, st', n, i);
  }

  lemma RegisteredNamesAreValid(st: ClusterState, st': ClusterState, n: NodeId, i: Instance)
    requires IdentitiesValid(st) && Register(st, st', n, i)
    ensures IdentitiesValid(st')
  {
  }

  // ----- Members -----

  lemma {:induction false} ListedIdsAreNamed(members: seq<Member>, i: nat, k: nat)
    requires i <= k < |members| && MemberListError(members, i) == None
    ensures members[k].id != EMPTY_ID
    decreases |members| - i
  {
    if i < k { ListedIdsAreNamed(members, i + 1, k); }
  }

  lemma MembersAreNamed(h: VnodeHash, s: Snapshot, n: NodeId)
    requires Valid(h, s) && n in Ids(s.members)
    ensures n != EMPTY_ID
  {
    var k :| 0 <= k < |s.members| && s.members[k].id == n;
    ListedIdsAreNamed(s.members, 0, k);
  }

  /** Sorted members are determined by which they are. */
  lemma SameMembers(a: seq<Member>, b: seq<Member>)
    requires MembersSorted(a) && MembersSorted(b) && forall m :: m in a <==> m in b
    ensures a == b
  {
    forall x ensures x in IdList(a) <==> x in IdList(b) {
      IdListElements(a, x);
      IdListElements(b, x);
    }
    AscendingAgree(IdList(a), IdList(b));
    forall i | 0 <= i < |a| ensures a[i] == b[i] {
      assert a[i] in b;
      var j :| 0 <= j < |b| && b[j] == a[i];
      assert IdList(b)[i] == IdList(a)[i] == IdList(b)[j];
    }
  }

  // ----- The guard refuses no plan -----

  lemma PlannedChangeIsValid(h: VnodeHash, st: ClusterState, c: Change)
    requires Validate(h, st) && c.phase == Planned && c.supersedes == None
    requires Valid(h, c.target) && c.target.seed == st.committed.seed && c.target.vnodes == st.committed.vnodes
    requires c.baseEpoch == st.committed.epoch < MAX_EPOCH && c.target.epoch == st.committed.epoch + 1
    requires c.base == Some(st.committed)
    requires |c.ranges| <= MAX_MIGRATION_RANGES && |c.obligations| <= MAX_REPLICA_OBLIGATIONS
    ensures Validate(h, Installed(st, c))
  {
    InstallKeepsRest(st, c);
    PlannedDescends(st, c);
  }

  lemma InstallKeepsRest(st: ClusterState, c: Change)
    ensures IdentitiesValid(st) ==> IdentitiesValid(Installed(st, c))
    ensures ReplicaMetadataValid(st) ==> ReplicaMetadataValid(Installed(st, c))
  {
  }

  lemma PlannedDescends(st: ClusterState, c: Change)
    requires c.phase == Planned && c.supersedes == None
    requires c.baseEpoch == st.committed.epoch < MAX_EPOCH && c.target.epoch == st.committed.epoch + 1
    ensures Descends(Installed(st, c), c) && HasPredecessor(Installed(st, c), c)
  {
  }

  /** What a plan offers the guard. */
  lemma PlanOffers(h: VnodeHash, committed: Snapshot, members: seq<Member>, config: Config, c: Change)
    requires IsPlan(h, committed, members, config, c)
    ensures Valid(h, c.target) && c.target.seed == committed.seed && c.target.vnodes == committed.vnodes
    ensures c.baseEpoch == committed.epoch < MAX_EPOCH && c.base == Some(committed)
    ensures |c.ranges| <= MAX_MIGRATION_RANGES && |c.obligations| <= MAX_REPLICA_OBLIGATIONS
  {
    TargetIsValid(h, committed, members, config, c.target);
  }

  /** The guard takes every planned change, whether it keeps its ranges, is a direct merge, or names a failed node. */
  lemma PlanIsStorable(h: VnodeHash, st: ClusterState, members: seq<Member>, config: Config, c: Change, installed: Change)
    requires Validate(h, st) && IsPlan(h, st.committed, members, config, c)
    requires installed == c.(directMerge := installed.directMerge, ranges := installed.ranges, failed := installed.failed)
    requires |installed.ranges| <= MAX_MIGRATION_RANGES
    ensures Validate(h, Installed(st, installed))
  {
    PlanFacts(h, st.committed, members, config, c);
    PlanOffers(h, st.committed, members, config, c);
    PlannedChangeIsValid(h, st, installed);
  }

  // ----- Storing a group of admissions -----

  /** The guard takes every acceptable group whose admissions carry a digest. */
  lemma {:induction false} AdmissionsAreStorable(h: VnodeHash, st: ClusterState, seeds: seq<Seed>)
    requires Validate(h, st) && WithinTaskLimit(st.committed)
    requires forall s :: s in seeds ==> SeedMatches(s) && SeedAcceptable(s, st.tasks, st.committed.epoch, st.instances)
    requires forall s :: s in seeds ==> s.admission.digest != 0
    ensures Validate(h, st.(tasks := StoreAll(st.tasks, seeds)))
  {
    var desired := DesiredKeys(DerivedRanges(st.committed));
    StoreAllValid(st.tasks, seeds, st.committed.epoch, desired, st.instances);
    ValidTasksFit(StoreAll(st.tasks, seeds), st.committed.epoch, desired);
  }

  // ----- Fencing -----

  lemma FenceIsStorable(h: VnodeHash, st: ClusterState, st': ClusterState, f: NodeId, c: Change)
    requires Validate(h, st) && FenceFailed(h, st, st', f, c)
    ensures Validate(h, st')
  {
    var planned := c.(failed := Some(f));
    PlanIsStorable(h, st, Remaining(st.committed.members, {f}), st.committed.config, c, planned);
    MembersAreNamed(h, st.committed, f);
    AddFence(h, Installed(st, planned), f);
  }

  lemma AddFence(h: VnodeHash, st: ClusterState, f: NodeId)
    requires Validate(h, st) && f != EMPTY_ID
    ensures Validate(h, st.(fenced := st.fenced + {f}))
  {
    var st' := st.(fenced := st.fenced + {f});
    SameTasksStayValid(st, st');
    if st.active.Some? { SameChangeStaysValid(h, st, st', st.active.value); }
    FencedNameIsValid(st, f);
  }

  lemma FencedNameIsValid(st: ClusterState, f: NodeId)
    requires IdentitiesValid(st) && f != EMPTY_ID
    ensures IdentitiesValid(st.(fenced := st.fenced + {f}))
  {
  }

  // ----- Recovery -----

  lemma NothingToUndo(committed: seq<Member>, base: seq<Member>, f: NodeId)
    requires MembersSorted(committed) && MembersSorted(base) && f !in Ids(committed)
    requires SurvivorsAre(committed, f, base)
    ensures committed == base
  {
    forall m ensures m in committed <==> m in base {
      assert m in committed ==> m.id in Ids(committed);
    }
    SameMembers(committed, base);
  }

  /** The failed node of a recovery is a member: without it there would be nothing to undo. */
  lemma RecoveredIsMember(h: VnodeHash, committed: Snapshot, base: Snapshot, f: NodeId, r: Change)
    requires Valid(h, committed) && Valid(h, base) && IsPlan(h, committed, base.members, committed.config, r)
    requires SurvivorsAre(committed.members, f, base.members)
    ensures f in Ids(committed.members)
  {
    if f !in Ids(committed.members) {
      NothingToUndo(committed.members, base.members, f);
      PlanFacts(h, committed, base.members, committed.config, r);
      SortedIsFixed(base.members);
    }
  }

  lemma RecoveryChangeIsValid(h: VnodeHash, st: ClusterState, st': ClusterState, f: NodeId, r: Change)
    requires Validate(h, st) && EpochsConsecutive(st) && Recover(h, st, st', f, r)
    ensures Valid(h, st'.committed) && ChangeValid(h, st', st'.active.value)
  {
    var members := st.active.value.base.value.members;
    PlanFacts(h, st.committed, members, st.committed.config, r);
    PlanOffers(h, st.committed, members, st.committed.config, r);
    assert Descends(st, st.active.value) && st.active.value.target == st.committed;
  }

  lemma RecoveryNamesAreValid(h: VnodeHash, st: ClusterState, st': ClusterState, f: NodeId, r: Change)
    requires Validate(h, st) && Recover(h, st, st', f, r)
    ensures IdentitiesValid(st')
  {
    RecoveredIsNamed(h, st.committed, st.active.value.base.value, f, r);
    ForgottenNameIsValid(st, st', f);
  }

  lemma RecoveredIsNamed(h: VnodeHash, committed: Snapshot, base: Snapshot, f: NodeId, r: Change)
    requires Valid(h, committed) && Valid(h, base) && IsPlan(h, committed, base.members, committed.config, r)
    requires SurvivorsAre(committed.members, f, base.members)
    ensures f != EMPTY_ID
  {
    RecoveredIsMember(h, committed, base, f, r);
    MembersAreNamed(h, committed, f);
  }

  lemma ForgottenNameIsValid(st: ClusterState, st': ClusterState, f: NodeId)
    requires IdentitiesValid(st) && f != EMPTY_ID && st'.stopConfirmations == st.stopConfirmations
    requires st'.instances == st.instances - {f} && st'.fenced == st.fenced + {f}
    ensures IdentitiesValid(st')
  {
  }

  /** The guard takes every recovery. */
  lemma RecoveryIsStorable(h: VnodeHash, st: ClusterState, st': ClusterState, f: NodeId, r: Change)
    requires Validate(h, st) && EpochsConsecutive(st) && Recover(h, st, st', f, r)
    ensures Validate(h, st')
  {
    RecoveryChangeIsValid(h, st, st', f, r);
    RecoveryNamesAreValid(h, st, st', f, r);
    ReconciledIsStorable(st.(instances := st.instances - {f}), r.target, Tasks([], []));
    assert ReplicaMetadataValid(st');
  }

  // ----- Publications -----

  lemma RebasedAreDistinct(t: Tasks, epoch: nat)
    requires DistinctAdmissions(t.admissions) && DistinctRepairs(t.repairs)
    ensures DistinctAdmissions(Rebased(t, epoch).admissions) && DistinctRepairs(Rebased(t, epoch).repairs)
    ensures (forall a :: a in t.admissions ==> a.instance != 0 && a.digest != 0)
        ==> forall a :: a in Rebased(t, epoch).admissions ==> a.instance != 0 && a.digest != 0
  {
    if forall a :: a in t.admissions ==> a.instance != 0 && a.digest != 0 {
      forall a | a in Rebased(t, epoch).admissions ensures a.instance != 0 && a.digest != 0 {
        var i :| 0 <= i < |t.admissions| && a == t.admissions[i].(epoch := epoch);
      }
    }
  }

  /** From a valid state in front of publication, the guard takes the publication of moved ranges, of a policy change and
      of a failure removal. */
  lemma PublicationsAreStorable(h: VnodeHash, st: ClusterState, st': ClusterState, e: Identity)
    requires Validate(h, st) && EpochsConsecutive(st) && st.active.Some? && !IsPublished(st)
    requires (exists ranges :: PublishMoved(st, st', e, ranges)) || PublishPolicy(st, st', e) || PublishFailed(st, st', e)
    ensures Validate(h, st')
  {
    var c := st.active.value;
    if ranges :| PublishMoved(st, st', e, ranges) {
      PublicationIsStorable(h, st, st.tasks, c.activationReady);
    } else if PublishPolicy(st, st', e) {
      RebasedAreDistinct(st.tasks, c.target.epoch);
      PublicationIsStorable(h, st, Rebased(st.tasks, c.target.epoch), c.activationReady);
    } else {
      FailureIsStorable(h, st, st', e);
    }
  }

  lemma FailureIsStorable(h: VnodeHash, st: ClusterState, st': ClusterState, e: Identity)
    requires Validate(h, st) && EpochsConsecutive(st) && st.active.Some? && !IsPublished(st) && PublishFailed(st, st', e)
    ensures Validate(h, st')
  {
    var survivors := st.(instances := st.instances - {st.active.value.failed.value});
    assert ChangeValid(h, survivors, survivors.active.value) && ReplicaMetadataValid(survivors);
    PublicationIsStorable(h, survivors, Tasks([], []), true);
  }

  // ----- The publication of a merge -----

  lemma RangeFollowersDiffer(h: VnodeHash, s: Snapshot, r: DerivedRange)
    requires Valid(h, s) && HasPlacement(s) && r in DerivedRanges(s)
    ensures NoRepeats(r.followers)
  {
    var i :| 0 <= i < |DerivedRanges(s)| && DerivedRanges(s)[i] == r;
    ReplicaCount(h, s, Boundaries(s)[i]);
    ReplicasNotEmpty(s, Boundaries(s)[i]);
  }

  /** Candidates have their admissions under different keys. */
  ghost predicate DistinctCandidates(s: seq<Candidate>) {
    forall i, j :: 0 <= i < j < |s| ==> KeyOf(s[i].admission) != KeyOf(s[j].admission)
  }

  lemma {:induction false} RangeCandidatesDiffer(st: ClusterState, epoch: nat, r: DerivedRange, parts: seq<DerivedRange>,
                                                 followers: seq<NodeId>)
    requires NoRepeats(followers)
    ensures DistinctCandidates(RangeCandidates(st, epoch, r, parts, followers))
  {
    if followers != [] {
      var init, last := followers[..|followers| - 1], followers[|followers| - 1];
      RangeCandidatesDiffer(st, epoch, r, parts, init);
      var rest := RangeCandidates(st, epoch, r, parts, init);
      forall i | 0 <= i < |rest| ensures rest[i].admission.node in init {
        RangeCandidateElements(st, epoch, r, parts, init, rest[i]);
      }
    }
  }

  lemma {:induction false} AllCandidatesDiffer(st: ClusterState, epoch: nat, olds: seq<DerivedRange>,
                                               ranges: seq<DerivedRange>)
    requires forall i, j :: 0 <= i < j < |ranges| ==> ranges[i].end != ranges[j].end
    requires forall r :: r in ranges ==> NoRepeats(r.followers)
    ensures DistinctCandidates(AllCandidates(st, epoch, olds, ranges))
  {
    if ranges != [] {
      var init, last := ranges[..|ranges| - 1], ranges[|ranges| - 1];
      AllCandidatesDiffer(st, epoch, olds, init);
      RangeCandidatesDiffer(st, epoch, last, Constituents(olds, last), last.followers);
      var a := AllCandidates(st, epoch, olds, init);
      var b := RangeCandidates(st, epoch, last, Constituents(olds, last), last.followers);
      forall i | 0 <= i < |a| ensures a[i].admission.end != last.end {
        CandidateElements(st, epoch, olds, init, a[i]);
      }
      forall i | 0 <= i < |b| ensures b[i].admission.end == last.end {
        RangeCandidateElements(st, epoch, last, Constituents(olds, last), last.followers, b[i]);
      }
    }
  }

  lemma {:induction false} CarriedDiffer(s: seq<Candidate>, caughtUp: set<Pair>)
    requires DistinctCandidates(s)
    ensures DistinctAdmissions(Carried(s, caughtUp))
  {
    if s != [] {
      var init, last := s[..|s| - 1], s[|s| - 1];
      CarriedDiffer(init, caughtUp);
      forall a | a in Carried(init, caughtUp) ensures KeyOf(a) != KeyOf(last.admission) {
        CarriedElements(init, caughtUp, a);
        var c :| c in init && c.admission == a;
        var i :| 0 <= i < |init| && init[i] == c;
        assert s[i] == c;
      }
    }
  }

  lemma CandidatesDiffer(h: VnodeHash, st: ClusterState, target: Snapshot)
    requires Valid(h, target) && HasPlacement(st.committed) && HasPlacement(target)
    ensures DistinctCandidates(Candidates(st, target))
  {
    ValidIsSorted(h, target);
    var ranges := DerivedRanges(target);
    BoundariesAreTokens(target);
    forall r | r in ranges ensures NoRepeats(r.followers) {
      RangeFollowersDiffer(h, target, r);
    }
    AllCandidatesDiffer(st, target.epoch, DerivedRanges(st.committed), ranges);
  }

  /** And the publication of a merge, with whatever candidates are caught up. */
  lemma {:induction false} MergeIsStorable(h: VnodeHash, st: ClusterState, st': ClusterState, e: Identity,
                                           caughtUp: set<Pair>)
    requires Validate(h, st) && EpochsConsecutive(st) && st.active.Some? && !IsPublished(st)
    requires HasPlacement(st.active.value.target)
    requires PublishMerged(st, st', e, Carried(Candidates(st, st.active.value.target), caughtUp))
    ensures Validate(h, st')
  {
    var target := st.active.value.target;
    var carried := Carried(Candidates(st, target), caughtUp);
    CandidatesDiffer(h, st, target);
    CarriedDiffer(Candidates(st, target), caughtUp);
    forall a | a in carried ensures a.instance != 0 && a.digest != 0 {
      CarriedElements(Candidates(st, target), caughtUp, a);
      var c :| c in Candidates(st, target) && c.admission == a;
      CandidateElements(st, target.epoch, DerivedRanges(st.committed), DerivedRanges(target), c);
    }
    PublicationIsStorable(h, st, Tasks(carried, []), true);
  }
}
