/**
 What acknowledging a write rests on, said without the functions that compute it: whom a write waits for under each
 policy, that a direct merge leaves every range able to acknowledge writes as soon as its followers are healthy, and
 which configurations can be met at all.
 */
module Acknowledgement {
  import opened Ring
  import opened Topology
  import opened Placement
  import opened Ranges
  import opened Cluster
  import opened Removal
  import opened Merge
  import opened Writability
  import opened Coordinator

  /** A write waits for this one of the followers. */
  predicate MustHave(policy: AckPolicy, followers: seq<NodeId>, n: NodeId) {
    || (policy == FirstSuccessor && followers != [] && n == followers[0])
    || (policy == AllReplicas && n in followers)
  }

  lemma AwaitedAreNeeded(policy: AckPolicy, followers: seq<NodeId>, n: NodeId)
    ensures n in Awaited(policy, followers) <==> MustHave(policy, followers, n)
  {
  }

  /** The places of a report's admitted followers. */
  function Holding(fs: seq<FollowerStatus>): set<nat> {
    set i | 0 <= i < |fs| && fs[i].admitted
  }

  /** Admitted, with a known lag within the guard. */
  predicate KeepsUp(f: FollowerStatus, guard: Guard) {
    f.admitted && f.lagKnown && f.lagMillis <= guard.maxLagMillis
  }

  function WithinGuard(fs: seq<FollowerStatus>, guard: Guard): set<nat> {
    set i | 0 <= i < |fs| && KeepsUp(fs[i], guard)
  }

  function Healthy(fs: seq<FollowerStatus>): set<nat> {
    set i | 0 <= i < |fs| && fs[i].healthy
  }

  lemma {:induction false} AdmittedIsSize(fs: seq<FollowerStatus>)
    ensures CountAdmitted(fs) == |Holding(fs)|
  {
    if fs != [] {
      var init, n := fs[..|fs| - 1], |fs| - 1;
      AdmittedIsSize(init);
      if fs[n].admitted {
        assert Holding(fs) == Holding(init) + {n};
      } else {
        assert Holding(fs) == Holding(init);
      }
    }
  }

  lemma {:induction false} FitIsSize(fs: seq<FollowerStatus>, guard: Guard)
    ensures CountFit(fs, guard) == |WithinGuard(fs, guard)|
  {
    if fs != [] {
      var init, n := fs[..|fs| - 1], |fs| - 1;
      FitIsSize(init, guard);
      if KeepsUp(fs[n], guard) {
        assert WithinGuard(fs, guard) == WithinGuard(init, guard) + {n};
      } else {
        assert WithinGuard(fs, guard) == WithinGuard(init, guard);
      }
    }
  }

  lemma {:induction false} HealthyIsSize(fs: seq<FollowerStatus>)
    ensures CountHealthy(fs) == |Healthy(fs)|
  {
    if fs != [] {
      var init, n := fs[..|fs| - 1], |fs| - 1;
      HealthyIsSize(init);
      if fs[n].healthy {
        assert Healthy(fs) == Healthy(init) + {n};
      } else {
        assert Healthy(fs) == Healthy(init);
      }
    }
  }

  lemma {:induction false} CountsAreSizes(fs: seq<FollowerStatus>, guard: Guard)
    ensures CountAdmitted(fs) == |Holding(fs)| && CountFit(fs, guard) == |WithinGuard(fs, guard)|
    ensures CountHealthy(fs) == |Healthy(fs)|
  {
    AdmittedIsSize(fs);
    FitIsSize(fs, guard);
    HealthyIsSize(fs);
  }

  // ----- Whom a write waits for -----

  /** The report lists the node as admitted, with a known lag within the guard. */
  ghost predicate Confirmed(range: RangeStatus, guard: Guard, n: NodeId) {
    exists f :: f in range.followers && f.node == n && KeepsUp(f, guard)
  }

  /** A write needs no report: the owner alone acknowledges it and the guard asks for no other copy. */
  predicate NeedsNobody(config: Config) {
    config.policy == OwnerOnly && config.guard.minAdmittedCopies <= 1 && config.guard.minHealthyFollowers == 0
  }

  /** The placement can meet the policy. */
  predicate Placeable(config: Config, replicas: seq<NodeId>) {
    (config.policy == FirstSuccessor ==> |replicas| >= 2) && (config.policy == AllReplicas ==> |replicas| >= config.rf)
  }

  /** The range's report meets the guard, and every follower the write waits for is confirmed. */
  ghost predicate Serviceable(config: Config, replicas: seq<NodeId>, range: RangeStatus)
    requires |replicas| > 0
  {
    && |Holding(range.followers)| + 1 >= config.guard.minAdmittedCopies
    && |WithinGuard(range.followers, config.guard)| >= config.guard.minHealthyFollowers
    && forall n :: MustHave(config.policy, replicas[1..], n) ==> Confirmed(range, config.guard, n)
  }

  /** The decision is exactly this, and the followers a write then waits for are exactly the policy's. */
  lemma DecisionIsExact(config: Config, replicas: seq<NodeId>, range: Option<RangeStatus>)
    requires |replicas| > 0
    ensures Decide(config, replicas, range).Ok?
       <==> && Placeable(config, replicas)
            && (NeedsNobody(config) || (range.Some? && Serviceable(config, replicas, range.value)))
    ensures Decide(config, replicas, range).Ok? ==>
              Decide(config, replicas, range).value == match config.policy
                                                       case OwnerOnly => []
                                                       case FirstSuccessor => [replicas[1]]
                                                       case AllReplicas => replicas[1..]
  {
    if range.Some? {
      CountsAreSizes(range.value.followers, config.guard);
      forall n ensures n in Awaited(config.policy, replicas[1..]) <==> MustHave(config.policy, replicas[1..], n) {
        AwaitedAreNeeded(config.policy, replicas[1..], n);
      }
      forall n ensures AnyFit(range.value.followers, config.guard, n) <==> Confirmed(range.value, config.guard, n) {
      }
    }
  }

  /** A token's writes wait for nobody, for its first successor, or for all its followers, as the policy says; each of
      these is listed, in the owner's range of a report of the owner's epoch, as admitted and within the lag guard. */
  lemma WritesWaitForThePolicy(topology: Snapshot, t: Token, status: Option<Status>, owner: NodeId)
    requires HasPlacement(topology)
    ensures |Replicas(topology, t)| > 0
    ensures var r := RequiredFollowers(topology, t, status, owner);
            r.Ok? ==>
              && (topology.config.policy == OwnerOnly ==> r.value == [])
              && (topology.config.policy == FirstSuccessor ==>
                    |Replicas(topology, t)| > 1 && r.value == [Replicas(topology, t)[1]])
              && (topology.config.policy == AllReplicas ==> r.value == Replicas(topology, t)[1..])
              && forall f :: f in r.value ==>
                   exists x :: && status.Some? && status.value.epoch == topology.epoch && x in status.value.ranges
                               && x.owner == owner && InInterval(x.start, x.end, t)
                               && Confirmed(x, topology.config.guard, f)
  {
    ReplicasNotEmpty(topology, t);
    var replicas := Replicas(topology, t);
    var range := if status.Some? && status.value.epoch == topology.epoch then FindRange(status.value.ranges, owner, t)
                 else None;
    DecisionIsExact(topology.config, replicas, range);
    if range.Some? { FoundIsOwners(status.value.ranges, owner, t); }
  }

  lemma {:induction false} FoundIsOwners(ranges: seq<RangeStatus>, owner: NodeId, t: Token)
    ensures var x := FindRange(ranges, owner, t);
            && (x.Some? ==> x.value in ranges && x.value.owner == owner && InInterval(x.value.start, x.value.end, t))
            && (x.None? ==> forall y :: y in ranges ==> !(y.owner == owner && InInterval(y.start, y.end, t)))
  {
    if ranges != [] {
      FoundIsOwners(ranges[1..], owner, t);
      assert ranges == [ranges[0]] + ranges[1..];
    }
  }

  // ----- What the report says -----

  /** Both ends of the stream hold leases and are registered, a repair task joins them, and both answered. */
  ghost predicate Heard(st: ClusterState, live: set<NodeId>, answers: Answers, owner: NodeId, n: NodeId) {
    && owner in live && n in live && owner in st.instances && n in st.instances && answers(owner, n).Some?
    && exists x :: x in st.tasks.repairs && x.owner == owner && x.node == n
  }

  /** The report on a follower: it is admitted exactly if an admission of its current process is stored for the range and it
      is not fenced; its lag is known exactly if its stream was heard of; and it is healthy exactly if it is admitted,
      leased, and heard of within the guard. */
  lemma ReportIsExact(st: ClusterState, live: set<NodeId>, answers: Answers, r: DerivedRange, i: nat)
    requires i < |r.followers| && DistinctAdmissions(st.tasks.admissions)
    ensures var n, f := r.followers[i], FollowersOf(st, live, answers, r)[i];
            && f.node == n
            && (f.admitted <==> && n !in st.fenced && n in st.instances
                                && exists a :: && a in st.tasks.admissions && a.instance == st.instances[n]
                                               && KeyOf(a) == TaskKey(r.start, r.end, r.owner, n))
            && (f.lagKnown <==> Heard(st, live, answers, r.owner, n))
            && (f.lagKnown ==> && f.head == answers(r.owner, n).value.head && f.cursor == answers(r.owner, n).value.cursor
                               && f.lagMillis == answers(r.owner, n).value.lagMillis)
            && (f.leased <==> n in live)
            && (f.healthy <==> KeepsUp(f, st.committed.config.guard))
  {
    var n, key := r.followers[i], TaskKey(r.start, r.end, r.owner, r.followers[i]);
    if a :| a in st.tasks.admissions && KeyOf(a) == key {
      StoredIsTheOnly(st.tasks.admissions, a);
    }
    if StoredAdmission(st.tasks.admissions, key).Some? { StoredIsThere(st.tasks.admissions, key); }
  }

  lemma {:induction false} StoredIsThere(s: seq<Admission>, key: TaskKey)
    requires StoredAdmission(s, key).Some?
    ensures StoredAdmission(s, key).value in s && KeyOf(StoredAdmission(s, key).value) == key
  {
    if KeyOf(s[|s| - 1]) != key { StoredIsThere(s[..|s| - 1], key); }
  }

  lemma {:induction false} StoredIsTheOnly(s: seq<Admission>, a: Admission)
    requires DistinctAdmissions(s) && a in s
    ensures StoredAdmission(s, KeyOf(a)) == Some(a)
  {
    var init, last := s[..|s| - 1], s[|s| - 1];
    assert s == init + [last];
    if last != a {
      var i :| 0 <= i < |init| && init[i] == a;
      assert s[i] == a;
      StoredIsTheOnly(init, a);
    }
  }

  /** The barrier of a policy change, for one range: every admitted follower was heard of and has applied its whole stream,
      and the range could acknowledge writes under the target's configuration. */
  ghost predicate AtBarrier(config: Config, r: DerivedRange, range: RangeStatus) {
    && (forall f :: f in range.followers && f.admitted ==> f.lagKnown && f.cursor == f.head)
    && (config.policy == AllReplicas ==> |r.followers| + 1 >= config.rf)
    && Serviceable(config, [r.owner] + r.followers, range)
  }

  lemma RangeVerifiedIsBarrier(config: Config, r: DerivedRange, range: RangeStatus)
    ensures RangeVerified(config, r, range.followers) <==> AtBarrier(config, r, range)
  {
    var fs := range.followers;
    assert ([r.owner] + r.followers)[1..] == r.followers;
    CountsAreSizes(fs, config.guard);
    forall n ensures n in Awaited(config.policy, r.followers) <==> MustHave(config.policy, r.followers, n) {
      AwaitedAreNeeded(config.policy, r.followers, n);
    }
    if forall f :: f in fs && f.admitted ==> f.lagKnown && f.cursor == f.head {
      RipeMeansFit(fs, config.guard);
      forall n ensures AnyRipe(fs, config.guard, n) <==> Confirmed(range, config.guard, n) {
      }
    }
  }

  lemma {:induction false} RipeMeansFit(fs: seq<FollowerStatus>, guard: Guard)
    requires forall f :: f in fs && f.admitted ==> f.cursor == f.head
    ensures CountRipe(fs, guard) == CountFit(fs, guard)
  {
    if fs != [] {
      RipeMeansFit(fs[..|fs| - 1], guard);
      assert fs[|fs| - 1] in fs;
    }
  }

  /** A report verifies a target if and only if it is of the epoch before and, for every range of the target, the first of
      its ranges with the same ends and owner is settled. */
  lemma VerifiedMeansBarrier(target: Snapshot, status: Status)
    requires HasPlacement(target) && target.epoch > 0
    ensures PolicyReadinessVerified(target, status)
       <==> && status.epoch + 1 == target.epoch
            && forall r :: r in DerivedRanges(target) ==>
                 FindExact(status.ranges, r).Some? && AtBarrier(target.config, r, FindExact(status.ranges, r).value)
  {
    forall r | r in DerivedRanges(target) && FindExact(status.ranges, r).Some?
      ensures RangeVerified(target.config, r, FindExact(status.ranges, r).value.followers)
         <==> AtBarrier(target.config, r, FindExact(status.ranges, r).value)
    {
      RangeVerifiedIsBarrier(target.config, r, FindExact(status.ranges, r).value);
    }
  }

  // ----- Direct merges -----

  /** So many admitted followers are enough for the policy and the guard, whatever their lag. */
  predicate Enough(config: Config, k: nat) {
    && (config.policy == FirstSuccessor ==> k >= 1) && (config.policy == AllReplicas ==> k + 1 >= config.rf)
    && k + 1 >= config.guard.minAdmittedCopies && k >= config.guard.minHealthyFollowers
  }

  /** The merge asks for no fewer followers than are enough, and for no more. */
  lemma NeededIsLeast(target: Snapshot, k: nat)
    ensures Enough(target.config, k) <==> k >= RequiredMergeFollowers(target)
  {
  }

  /** A target can be merged if and only if every new owner is covered and the first followers of every range, as many as
      are enough, hold all its parts. */
  lemma MergeableMeansEnough(st: ClusterState, target: Snapshot)
    requires HasPlacement(st.committed) && HasPlacement(target)
    ensures Mergeable(st, target)
       <==> && Covered(st, target)
            && forall r :: r in DerivedRanges(target) ==> EnoughHold(st, target, r)
  {
    var needed := RequiredMergeFollowers(target);
    forall r | r in DerivedRanges(target)
      ensures NeededFollowersHold(st, DerivedRanges(st.committed), r, needed) <==> EnoughHold(st, target, r)
    {
      NeededIsLeast(target, needed);
      if NeededFollowersHold(st, DerivedRanges(st.committed), r, needed) {
        assert FirstHold(st, target, r, needed);
      }
      if k: nat :| Enough(target.config, k) && FirstHold(st, target, r, k) {
        NeededIsLeast(target, k);
        forall f | f in Take(r.followers, needed) ensures IsCandidate(st, Constituents(DerivedRanges(st.committed), r), f) {
          var i :| 0 <= i < needed && f == r.followers[i];
        }
      }
    }
  }

  ghost predicate FirstHold(st: ClusterState, target: Snapshot, r: DerivedRange, k: nat)
    requires HasPlacement(st.committed)
  {
    k <= |r.followers|
    && forall i :: 0 <= i < k ==> IsCandidate(st, Constituents(DerivedRanges(st.committed), r), r.followers[i])
  }

  ghost predicate EnoughHold(st: ClusterState, target: Snapshot, r: DerivedRange)
    requires HasPlacement(st.committed)
  {
    exists k: nat :: Enough(target.config, k) && FirstHold(st, target, r, k)
  }

  /** The state a merge leaves, as far as its report goes. */
  ghost predicate MergedInto(st: ClusterState, target: Snapshot, caughtUp: set<Pair>, st': ClusterState)
    requires HasPlacement(st.committed) && HasPlacement(target)
  {
    && st'.committed == target && st'.instances == st.instances && st'.fenced == st.fenced
    && st'.tasks == PublishedTasks(st, target, Carried(Candidates(st, target), caughtUp))
  }

  lemma NeededIsAdmitted(st: ClusterState, target: Snapshot, caughtUp: set<Pair>, st': ClusterState, r: DerivedRange, i: nat)
    requires Sorted(target.assignments) && HasPlacement(st.committed) && HasPlacement(target)
    requires Mergeable(st, target) && RequiredPairs(st, target) <= caughtUp && MergedInto(st, target, caughtUp, st')
    requires r in DerivedRanges(target) && i < RequiredMergeFollowers(target)
    ensures i < |r.followers| && Admitted(st', r, r.followers[i])
  {
    var needed := RequiredMergeFollowers(target);
    assert NeededFollowersHold(st, DerivedRanges(st.committed), r, needed);
    var f := r.followers[i];
    assert f == Take(r.followers, needed)[i];
    RequiredFollowersSurvive(st, target, caughtUp, r, f);
    var a :| a in st'.tasks.admissions && KeyOf(a) == TaskKey(r.start, r.end, r.owner, f);
    StoredUnderKey(st'.tasks.admissions, a);
    var stored := StoredAdmission(st'.tasks.admissions, KeyOf(a)).value;
    CurrentAdmissionsElements(Carried(Candidates(st, target), caughtUp), target.epoch, DesiredKeys(DerivedRanges(target)),
                              st.instances);
    assert AdmissionCurrent(stored, target.epoch, DesiredKeys(DerivedRanges(target)), st.instances);
    assert IsCandidate(st, Constituents(DerivedRanges(st.committed), r), f);
  }

  lemma {:induction false} StoredUnderKey(s: seq<Admission>, a: Admission)
    requires a in s
    ensures StoredAdmission(s, KeyOf(a)).Some?
    ensures StoredAdmission(s, KeyOf(a)).value in s && KeyOf(StoredAdmission(s, KeyOf(a)).value) == KeyOf(a)
  {
    var init, last := s[..|s| - 1], s[|s| - 1];
    assert s == init + [last];
    if KeyOf(last) != KeyOf(a) { StoredUnderKey(init, a); }
  }

  /** A published merge leaves every range with all the followers its writes wait for, and with as many as the guard asks
      for, admitted: only their health or lag can keep it from acknowledging writes. */
  lemma MergedRangesCanAcknowledge(st: ClusterState, target: Snapshot, caughtUp: set<Pair>, st': ClusterState,
                                   live: set<NodeId>, answers: Answers, r: DerivedRange)
    requires Sorted(target.assignments) && HasPlacement(st.committed) && HasPlacement(target)
    requires Mergeable(st, target) && RequiredPairs(st, target) <= caughtUp && MergedInto(st, target, caughtUp, st')
    requires r in DerivedRanges(target)
    ensures forall n :: MustHave(target.config.policy, r.followers, n) ==> Admitted(st', r, n)
    ensures (target.config.policy == FirstSuccessor ==> r.followers != [])
         && (target.config.policy == AllReplicas ==> |r.followers| + 1 >= target.config.rf)
    ensures var fs := FollowersOf(st', live, answers, r);
            && |Holding(fs)| + 1 >= target.config.guard.minAdmittedCopies
            && |Holding(fs)| >= target.config.guard.minHealthyFollowers
            && ((forall f :: f in fs && f.admitted ==> f.healthy) ==> !Blocked(target.config, r, fs))
  {
    FirstAreAdmitted(st, target, caughtUp, st', r);
    FirstAreEnough(target.config, st', r, RequiredMergeFollowers(target), FollowersOf(st', live, answers, r));
  }

  lemma FirstAreEnough(config: Config, st: ClusterState, r: DerivedRange, k: nat, fs: seq<FollowerStatus>)
    requires k <= |r.followers| && Enough(config, k) && (config.policy == AllReplicas ==> k == |r.followers|)
    requires forall i :: 0 <= i < k ==> Admitted(st, r, r.followers[i])
    requires |fs| == |r.followers|
    requires forall i :: 0 <= i < |fs| ==> fs[i].node == r.followers[i] && fs[i].admitted == Admitted(st, r, r.followers[i])
    ensures forall n :: MustHave(config.policy, r.followers, n) ==> Admitted(st, r, n)
    ensures |Holding(fs)| + 1 >= config.guard.minAdmittedCopies && |Holding(fs)| >= config.guard.minHealthyFollowers
    ensures (forall f :: f in fs && f.admitted ==> f.healthy) ==> !Blocked(config, r, fs)
  {
    FirstAreHolding(fs, k);
    forall n | MustHave(config.policy, r.followers, n) ensures Admitted(st, r, n) {
      var i :| 0 <= i < |r.followers| && r.followers[i] == n && i < k;
    }
    if forall f :: f in fs && f.admitted ==> f.healthy { HealthUnblocks(config, r, fs); }
  }

  lemma FirstAreAdmitted(st: ClusterState, target: Snapshot, caughtUp: set<Pair>, st': ClusterState, r: DerivedRange)
    requires Sorted(target.assignments) && HasPlacement(st.committed) && HasPlacement(target)
    requires Mergeable(st, target) && RequiredPairs(st, target) <= caughtUp && MergedInto(st, target, caughtUp, st')
    requires r in DerivedRanges(target)
    ensures var needed := RequiredMergeFollowers(target);
            && needed <= |r.followers| && Enough(target.config, needed)
            && (target.config.policy == AllReplicas ==> needed == |r.followers|)
            && forall i :: 0 <= i < needed ==> Admitted(st', r, r.followers[i])
  {
    var needed := RequiredMergeFollowers(target);
    NeededIsLeast(target, needed);
    assert NeededFollowersHold(st, DerivedRanges(st.committed), r, needed);
    forall i | 0 <= i < needed ensures Admitted(st', r, r.followers[i]) {
      NeededIsAdmitted(st, target, caughtUp, st', r, i);
    }
    FollowersFit(target, r);
  }

  /** A range has no more followers than the replication factor leaves. */
  lemma FollowersFit(s: Snapshot, r: DerivedRange)
    requires HasPlacement(s) && r in DerivedRanges(s)
    ensures |r.followers| + 1 <= s.config.rf
  {
    var i :| 0 <= i < |DerivedRanges(s)| && DerivedRanges(s)[i] == r;
    ReplicasNotEmpty(s, Boundaries(s)[i]);
  }

  lemma FirstAreHolding(fs: seq<FollowerStatus>, k: nat)
    requires k <= |fs| && forall i :: 0 <= i < k ==> fs[i].admitted
    ensures |Holding(fs)| >= k
  {
    assert Holding(fs) == Below(k) + (Holding(fs) - Below(k));
  }

  ghost function Below(k: nat): (r: set<nat>)
    ensures |r| == k && forall i :: i in r <==> 0 <= i < k
  {
    if k == 0 then {} else Below(k - 1) + {k - 1}
  }

  lemma HealthUnblocks(config: Config, r: DerivedRange, fs: seq<FollowerStatus>)
    requires |fs| == |r.followers| && forall i :: 0 <= i < |fs| ==> fs[i].node == r.followers[i]
    requires forall f :: f in fs && f.admitted ==> f.healthy
    requires forall i :: 0 <= i < |fs| && MustHave(config.policy, r.followers, fs[i].node) ==> fs[i].admitted
    requires config.policy == FirstSuccessor ==> r.followers != []
    requires config.policy == AllReplicas ==> |r.followers| + 1 >= config.rf
    requires |Holding(fs)| + 1 >= config.guard.minAdmittedCopies && |Holding(fs)| >= config.guard.minHealthyFollowers
    ensures !Blocked(config, r, fs)
  {
    CountsAreSizes(fs, config.guard);
    HoldingIsHealthy(fs);
    forall n | n in Awaited(config.policy, r.followers) ensures AnyHealthy(fs, n) {
      AwaitedAreNeeded(config.policy, r.followers, n);
      NeededIsHealthy(config.policy, r, fs, n);
    }
  }

  lemma HoldingIsHealthy(fs: seq<FollowerStatus>)
    requires forall f :: f in fs && f.admitted ==> f.healthy
    ensures |Healthy(fs)| >= |Holding(fs)|
  {
    assert Healthy(fs) == Holding(fs) + (Healthy(fs) - Holding(fs));
  }

  lemma NeededIsHealthy(policy: AckPolicy, r: DerivedRange, fs: seq<FollowerStatus>, n: NodeId)
    requires |fs| == |r.followers| && forall i :: 0 <= i < |fs| ==> fs[i].node == r.followers[i]
    requires forall f :: f in fs && f.admitted ==> f.healthy
    requires forall i :: 0 <= i < |fs| && MustHave(policy, r.followers, fs[i].node) ==> fs[i].admitted
    requires MustHave(policy, r.followers, n)
    ensures AnyHealthy(fs, n)
  {
    var i :| 0 <= i < |r.followers| && r.followers[i] == n;
    assert fs[i] in fs;
  }

  // ----- Configurations that can be met -----

  /** Every follower of the range is admitted and healthy. */
  predicate AllWell(r: DerivedRange, fs: seq<FollowerStatus>) {
    |fs| == |r.followers| && forall i :: 0 <= i < |fs| ==> fs[i].node == r.followers[i] && fs[i].admitted && fs[i].healthy
  }

  lemma AllAreCounted(r: DerivedRange, fs: seq<FollowerStatus>)
    requires AllWell(r, fs)
    ensures |Holding(fs)| == |fs| && |Healthy(fs)| == |fs|
  {
    assert Holding(fs) == Below(|fs|);
    assert Healthy(fs) == Below(|fs|);
  }

  lemma WellMeansFull(config: Config, r: DerivedRange, fs: seq<FollowerStatus>)
    requires AllWell(r, fs)
    ensures Blocked(config, r, fs) <==> !Enough(config, |r.followers|)
  {
    CountsAreSizes(fs, config.guard);
    AllAreCounted(r, fs);
    forall n | n in Awaited(config.policy, r.followers) ensures AnyHealthy(fs, n) {
      AwaitedAreNeeded(config.policy, r.followers, n);
      var i :| 0 <= i < |r.followers| && r.followers[i] == n;
      assert fs[i] in fs;
    }
  }

  /** A configuration is accepted if and only if its guard asks for the owner's copy and allows some lag, and a range with as
      many replicas as configured, all well, would not be blocked. */
  lemma AcceptedMeansAchievable(config: Config, r: DerivedRange, fs: seq<FollowerStatus>)
    requires AllWell(r, fs) && |r.followers| + 1 == config.rf
    ensures ConfigError(config) == None
       <==> && config.rf <= MAX_MEMBERS && config.guard.minAdmittedCopies > 0 && config.guard.maxLagMillis > 0
            && !Blocked(config, r, fs)
  {
    WellMeansFull(config, r, fs);
  }

  lemma FollowerCount(h: VnodeHash, s: Snapshot, r: DerivedRange)
    requires Valid(h, s) && HasPlacement(s) && r in DerivedRanges(s)
    ensures |r.followers| + 1 == Min(s.config.rf, |s.members|) && ConfigError(s.config) == None
  {
    var i :| 0 <= i < |DerivedRanges(s)| && DerivedRanges(s)[i] == r;
    ReplicaCount(h, s, Boundaries(s)[i]);
  }

  /** A change is accepted for its policy if and only if, with every follower admitted and healthy, no range of its target
      would be blocked; the one exception leaves a cluster that already lacks replicas for its policy as it is. */
  lemma SatisfiableMeansUnblocked(h: VnodeHash, committed: Snapshot, target: Snapshot, r: DerivedRange,
                                  fs: seq<FollowerStatus>)
    requires Valid(h, target) && HasPlacement(target) && r in DerivedRanges(target) && AllWell(r, fs)
    ensures PolicySatisfiable(committed, target)
       <==> || !Blocked(target.config, r, fs)
            || (&& target.config.policy == AllReplicas && |target.members| < target.config.rf
                && target.members == committed.members && target.config.rf == committed.config.rf
                && !Blocked(target.config.(policy := OwnerOnly), r, fs))
  {
    FollowerCount(h, target, r);
    WellMeansFull(target.config, r, fs);
    WellMeansFull(target.config.(policy := OwnerOnly), r, fs);
  }
}
