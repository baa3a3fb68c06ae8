/**
 The data plane over any number of epochs. A direct merge carries admissions into the next epoch, a policy change rebases
 them, every other publication drops them. In every run an admitted follower misses only what is on its stream, so a
 direct merge hands every token to an owner that holds exactly what the old owner held.
 */
module Epochs {
  import opened Ring
  import opened Topology
  import opened Placement
  import opened Ranges
  import opened MigrationPlan
  import opened Cluster
  import opened Removal
  import opened Merge
  import opened MergeRun
  import opened Writability
  import opened Runs
  import Coordinator

  // ----- The setting of an epoch -----

  function Followers(base: Snapshot, t: Token): seq<NodeId>
    requires HasPlacement(base)
  {
    ReplicasNotEmpty(base, t);
    Replicas(base, t)[1..]
  }

  ghost function EpochSetting(base: Snapshot): Setting
    requires HasPlacement(base)
  {
    Setting(t => Owner(base.assignments, t), t => Followers(base, t), Ids(base.members),
            k => k in DesiredKeys(DerivedRanges(base)))
  }

  /** The range of a desired task, and where its tokens are placed. */
  lemma DesiredRange(base: Snapshot, k: TaskKey, t: Token)
    requires Sorted(base.assignments) && HasPlacement(base)
    requires k in DesiredKeys(DerivedRanges(base)) && InKey(k, t)
    ensures Owner(base.assignments, t) == k.owner && k.node in Followers(base, t)
    ensures var r := RangeOf(base, t); k == TaskKey(r.start, r.end, r.owner, k.node)
  {
    DesiredElements(DerivedRanges(base), k);
    var r :| r in DerivedRanges(base) && k.start == r.start && k.end == r.end && k.owner == r.owner && k.node in r.followers;
    var i :| 0 <= i < |DerivedRanges(base)| && DerivedRanges(base)[i] == r;
    RangesTileTheRing(base, i, t);
    RangeOfIsPlacement(base, t);
    ReplicasNotEmpty(base, t);
    assert Followers(base, t) == r.followers;
  }

  lemma PlacedOnMembers(h: VnodeHash, base: Snapshot, t: Token)
    requires Valid(h, base) && HasPlacement(base)
    ensures Owner(base.assignments, t) in Ids(base.members) && Owner(base.assignments, t) !in Followers(base, t)
    ensures forall f :: f in Followers(base, t) ==> f in Ids(base.members)
  {
    ReplicaCount(h, base, t);
    var replicas := Replicas(base, t);
    assert replicas[0] in Elements(replicas);
    forall f | f in Followers(base, t) ensures f in Ids(base.members) {
      assert f in Elements(replicas);
    }
  }

  lemma DesiredOfMembers(h: VnodeHash, base: Snapshot, k: TaskKey)
    requires Valid(h, base) && HasPlacement(base) && k in DesiredKeys(DerivedRanges(base))
    ensures k.owner in Ids(base.members) && k.node in Ids(base.members)
  {
    ValidIsSorted(h, base);
    assert InKey(k, k.end);
    DesiredRange(base, k, k.end);
    PlacedOnMembers(h, base, k.end);
  }

  lemma EpochSettingSound(h: VnodeHash, base: Snapshot)
    requires Valid(h, base) && HasPlacement(base)
    ensures SettingSound(EpochSetting(base))
  {
    ValidIsSorted(h, base);
    var e := EpochSetting(base);
    forall t: Token ensures e.owner(t) !in e.followers(t) && e.owner(t) in e.members {
      PlacedOnMembers(h, base, t);
    }
    forall k: TaskKey, t: Token | e.desired(k) && InKey(k, t) ensures Carries(e, PairOf(k), t) {
      DesiredRange(base, k, t);
    }
    forall k: TaskKey | e.desired(k) ensures k.owner in e.members && k.node in e.members {
      DesiredOfMembers(h, base, k);
    }
  }

  /** What every state of every run satisfies. */
  ghost predicate EpochInv(h: VnodeHash, s: State) {
    Valid(h, s.st.committed) && HasPlacement(s.st.committed) && Inv(EpochSetting(s.st.committed), s)
  }

  // ----- Direct merges -----

  ghost predicate MergeOf(h: VnodeHash, base: Snapshot, target: Snapshot) {
    SameRing(h, base, target) && Ids(target.members) <= Ids(base.members) && HasPlacement(base) && HasPlacement(target)
  }

  /** The locked check before a merge publishes: nothing the proof used has changed since the snapshot, and every required
      stream was found caught up. */
  ghost predicate MayMerge(h: VnodeHash, s: State) {
    && s.exec.Checking? && MergeOf(h, s.st.committed, s.exec.target)
    && SameProofBasis(s.st, s.exec.snapshot)
    && Mergeable(s.exec.snapshot, s.exec.target) && RequiredPairs(s.exec.snapshot, s.exec.target) <= s.exec.caughtUp
  }

  /** A node that owns a token's range, or has a caught-up unfenced admission for it, holds exactly the owner's writes. */
  lemma HolderHoldsExactly(s: State, f: NodeId, w: Write)
    requires Sorted(s.st.committed.assignments) && HasPlacement(s.st.committed)
    requires Inv(EpochSetting(s.st.committed), s) && s.exec.Checking?
    requires var part := RangeOf(s.st.committed, w.token);
      part.owner == f || (AdmissionFor(s.exec.snapshot, part, f).Some? && Pair(part.owner, f) in s.exec.caughtUp)
    ensures w in Held(s, Owner(s.st.committed.assignments, w.token)) <==> w in Held(s, f)
  {
    var base := s.st.committed;
    var part := RangeOf(base, w.token);
    RangeOfIsPlacement(base, w.token);
    if part.owner != f {
      var a := AdmissionFor(s.exec.snapshot, part, f).value;
      assert AdmissionSound(EpochSetting(base), s.seeded, s.exec.snapshot, a);
      RangesTileTheRing(base, Slot(Boundaries(base), w.token), w.token);
      CaughtUpIsEqual(EpochSetting(base), s, KeyOf(a), w);
    }
  }

  lemma OwnerPairRequired(st: ClusterState, target: Snapshot, t: Token)
    requires Coarser(st.committed, target)
    requires RangeOf(st.committed, t).owner != Owner(target.assignments, t)
    ensures Pair(RangeOf(st.committed, t).owner, Owner(target.assignments, t)) in RequiredPairs(st, target)
  {
    var j := Slot(Boundaries(target), t);
    RangesTileTheRing(target, j, t);
    ConstituentsTile(st.committed, target, j, t);
    RangeOfIsPlacement(target, t);
    var r, p := DerivedRanges(target)[j], RangeOf(st.committed, t);
    assert r in DerivedRanges(target) && p in Constituents(DerivedRanges(st.committed), r);
  }

  lemma NewOwnerIsHolder(st: ClusterState, target: Snapshot, caughtUp: set<Pair>, t: Token)
    requires Coarser(st.committed, target) && Mergeable(st, target) && RequiredPairs(st, target) <= caughtUp
    ensures var part := RangeOf(st.committed, t); var f := Owner(target.assignments, t);
      part.owner == f || (AdmissionFor(st, part, f).Some? && Pair(part.owner, f) in caughtUp)
  {
    CoveredToken(st, target, t);
    if RangeOf(st.committed, t).owner != Owner(target.assignments, t) {
      OwnerPairRequired(st, target, t);
    }
  }

  lemma MergeIsCoarser(h: VnodeHash, s: State)
    requires MayMerge(h, s)
    ensures Coarser(s.exec.snapshot.committed, s.exec.target)
  {
    RemovalIsCoarser(h, s.st.committed, s.exec.target);
  }

  lemma NewOwnerHoldsExactly(h: VnodeHash, s: State, w: Write)
    requires EpochInv(h, s) && MayMerge(h, s)
    ensures w in Held(s, Owner(s.st.committed.assignments, w.token))
       <==> w in Held(s, Owner(s.exec.target.assignments, w.token))
  {
    MergeIsCoarser(h, s);
    NewOwnerIsHolder(s.exec.snapshot, s.exec.target, s.exec.caughtUp, w.token);
    HolderHoldsExactly(s, Owner(s.exec.target.assignments, w.token), w);
  }

  lemma CarriedIsCandidate(st: ClusterState, epoch: nat, olds: seq<DerivedRange>, ranges: seq<DerivedRange>,
                           caughtUp: set<Pair>, a: Admission)
    returns (j: nat, f: NodeId)
    requires a in Carried(AllCandidates(st, epoch, olds, ranges), caughtUp)
    ensures j < |ranges| && a.start == ranges[j].start && a.end == ranges[j].end && a.node == f && f !in st.fenced
    ensures var parts := Constituents(olds, ranges[j]); IsCandidate(st, parts, f) && PartPairs(parts, f) <= caughtUp
  {
    CarriedElements(AllCandidates(st, epoch, olds, ranges), caughtUp, a);
    var c :| c in AllCandidates(st, epoch, olds, ranges) && c.pairs <= caughtUp && c.admission == a;
    CandidateElements(st, epoch, olds, ranges, c);
    var r, g :| r in ranges && g in r.followers && IsCandidate(st, Constituents(olds, r), g)
                && c == CandidateFor(st, epoch, r, Constituents(olds, r), g);
    j :| 0 <= j < |ranges| && ranges[j] == r;
    f := g;
  }

  lemma {:induction false} CarriedHoldsParts(st: ClusterState, target: Snapshot, caughtUp: set<Pair>, a: Admission, t: Token)
    requires Coarser(st.committed, target)
    requires a in Carried(Candidates(st, target), caughtUp) && InInterval(a.start, a.end, t)
    ensures var part := RangeOf(st.committed, t);
      part.owner == a.node || (AdmissionFor(st, part, a.node).Some? && Pair(part.owner, a.node) in caughtUp)
  {
    var j, f := CarriedIsCandidate(st, target.epoch, DerivedRanges(st.committed), DerivedRanges(target), caughtUp, a);
    var part, parts := RangeOf(st.committed, t), Constituents(DerivedRanges(st.committed), DerivedRanges(target)[j]);
    ConstituentsTile(st.committed, target, j, t);
    assert HoldsPart(st, part, f);
    if part.owner != f {
      assert Pair(part.owner, f) in PartPairs(parts, f);
    }
  }

  /** The admissions a merge carries over. */
  ghost function CarriedOver(h: VnodeHash, s: State): seq<Admission>
    requires MayMerge(h, s)
  {
    Carried(Candidates(s.exec.snapshot, s.exec.target), s.exec.caughtUp)
  }

  lemma CarriedHoldsExactly(h: VnodeHash, s: State, a: Admission, w: Write)
    requires EpochInv(h, s) && MayMerge(h, s) && a in CarriedOver(h, s) && InInterval(a.start, a.end, w.token)
    ensures w in Held(s, Owner(s.st.committed.assignments, w.token)) <==> w in Held(s, a.node)
  {
    MergeIsCoarser(h, s);
    CarriedHoldsParts(s.exec.snapshot, s.exec.target, s.exec.caughtUp, a, w.token);
    HolderHoldsExactly(s, a.node, w);
  }

  // ----- Policy changes -----

  /** A change of configuration alone that asks for no new follower. */
  ghost predicate PolicyOf(h: VnodeHash, base: Snapshot, target: Snapshot) {
    && SameRing(h, base, target) && target.members == base.members && HasPlacement(base) && HasPlacement(target)
    && Obligations(base, target) == []
  }

  lemma SameAssignments(h: VnodeHash, base: Snapshot, target: Snapshot)
    requires PolicyOf(h, base, target)
    ensures target.assignments == base.assignments && Sorted(base.assignments)
  {
    ValidIsSorted(h, base);
  }

  lemma InTail(s: seq<NodeId>, f: NodeId)
    requires f in s && s[0] != f
    ensures f in s[1..]
  {
    assert s == [s[0]] + s[1..];
  }

  lemma FollowersKept(h: VnodeHash, base: Snapshot, target: Snapshot, t: Token, f: NodeId)
    requires PolicyOf(h, base, target) && f in Followers(target, t)
    ensures f in Followers(base, t)
  {
    SameAssignments(h, base, target);
    ObligationsAreExact(base, target, t, f);
    PlacedOnMembers(h, target, t);
    ReplicasNotEmpty(base, t);
    InTail(Replicas(base, t), f);
  }

  lemma RangesAlign(base: Snapshot, target: Snapshot, i: nat)
    requires HasPlacement(base) && HasPlacement(target) && target.assignments == base.assignments
    requires i < |DerivedRanges(target)|
    ensures i < |DerivedRanges(base)|
    ensures var r, b := DerivedRanges(target)[i], DerivedRanges(base)[i];
            && b.start == r.start && b.end == r.end && b.owner == r.owner
            && r.followers == Followers(target, r.end) && b.followers == Followers(base, r.end)
  {
    ReplicasNotEmpty(base, Boundaries(base)[i]);
    ReplicasNotEmpty(target, Boundaries(base)[i]);
  }

  /** The placement keeps its ranges and owners and gains no follower. */
  lemma PolicyKeepsRange(h: VnodeHash, base: Snapshot, target: Snapshot, i: nat, f: NodeId)
    requires PolicyOf(h, base, target) && i < |DerivedRanges(target)| && f in DerivedRanges(target)[i].followers
    ensures i < |DerivedRanges(base)|
    ensures var r, b := DerivedRanges(target)[i], DerivedRanges(base)[i];
            b.start == r.start && b.end == r.end && b.owner == r.owner && f in b.followers
  {
    SameAssignments(h, base, target);
    RangesAlign(base, target, i);
    FollowersKept(h, base, target, DerivedRanges(target)[i].end, f);
  }

  lemma PolicyKeepsDesired(h: VnodeHash, base: Snapshot, target: Snapshot, k: TaskKey) returns (i: nat)
    requires PolicyOf(h, base, target) && k in DesiredKeys(DerivedRanges(target))
    ensures k in DesiredKeys(DerivedRanges(base))
    ensures i < |DerivedRanges(base)| && i < |DerivedRanges(target)|
    ensures var b, r := DerivedRanges(base)[i], DerivedRanges(target)[i];
            && k == TaskKey(b.start, b.end, b.owner, k.node) && k.node in b.followers
            && b.start == r.start && b.end == r.end && b.owner == r.owner
  {
    DesiredElements(DerivedRanges(target), k);
    var r :| r in DerivedRanges(target) && k.start == r.start && k.end == r.end && k.owner == r.owner && k.node in r.followers;
    i :| 0 <= i < |DerivedRanges(target)| && DerivedRanges(target)[i] == r;
    PolicyKeepsRange(h, base, target, i, k.node);
    assert DerivedRanges(base)[i] in DerivedRanges(base);
    DesiredElements(DerivedRanges(base), k);
  }

  /** An answer that finds a cursor at the head it was compared with is a stream found caught up. */
  ghost predicate Honest(s: State, answers: Answers) {
    s.exec.Checking? && forall o, f :: answers(o, f).Some? && answers(o, f).value.cursor == answers(o, f).value.head
                                  ==> Pair(o, f) in s.exec.caughtUp
  }

  /** A policy change may publish: under its fence, the readiness barrier passed on a report of the snapshot. */
  ghost predicate MayRebase(h: VnodeHash, s: State, live: set<NodeId>, answers: Answers) {
    && s.exec.Checking? && PolicyOf(h, s.st.committed, s.exec.target) && Honest(s, answers)
    && s.exec.snapshot.committed == s.st.committed
    && PolicyReadinessVerified(s.exec.target, StatusOf(s.exec.snapshot, live, answers))
  }

  lemma {:induction false} StoredIsAdmission(s: seq<Admission>, a: Admission)
    requires a in s
    ensures StoredAdmission(s, KeyOf(a)).Some?
    ensures StoredAdmission(s, KeyOf(a)).value in s && KeyOf(StoredAdmission(s, KeyOf(a)).value) == KeyOf(a)
  {
    if KeyOf(s[|s| - 1]) != KeyOf(a) {
      assert s == s[..|s| - 1] + [s[|s| - 1]];
      StoredIsAdmission(s[..|s| - 1], a);
    }
  }

  /** The report of a snapshot with sound admissions names every unfenced one as admitted. */
  lemma ReportNamesAdmission(e: Setting, seeded: set<TaskKey>, snap: ClusterState, r: DerivedRange, a: Admission)
    requires AdmissionsSound(e, seeded, snap) && a in snap.tasks.admissions && a.node !in snap.fenced
    requires KeyOf(a) == TaskKey(r.start, r.end, r.owner, a.node)
    ensures Admitted(snap, r, a.node)
  {
    StoredIsAdmission(snap.tasks.admissions, a);
    assert AdmissionSound(e, seeded, snap, StoredAdmission(snap.tasks.admissions, KeyOf(a)).value);
  }

  /** An admission of a kept task that the report names was found caught up. */
  lemma ReportedIsCaughtUp(snap: ClusterState, target: Snapshot, live: set<NodeId>, answers: Answers, i: nat, node: NodeId)
    requires Sorted(snap.committed.assignments) && HasPlacement(snap.committed) && HasPlacement(target)
    requires PolicyReadinessVerified(target, StatusOf(snap, live, answers))
    requires i < |DerivedRanges(snap.committed)| && i < |DerivedRanges(target)|
    requires var b, r := DerivedRanges(snap.committed)[i], DerivedRanges(target)[i];
             && b.start == r.start && b.end == r.end && b.owner == r.owner && node in b.followers && Admitted(snap, b, node)
    ensures var o := DerivedRanges(snap.committed)[i].owner;
            answers(o, node).Some? && answers(o, node).value.cursor == answers(o, node).value.head
  {
    assert DerivedRanges(target)[i] in DerivedRanges(target);
    VerifiedMeansCaughtUp(snap, live, answers, target, i, node);
  }

  lemma KeptAdmission(e: Setting, s: State, a: Admission)
    requires SettingSound(e) && Inv(e, s) && s.exec.Checking? && a in s.st.tasks.admissions && a.node !in s.st.fenced
    ensures a in s.exec.snapshot.tasks.admissions && a.node !in s.exec.snapshot.fenced && KeyOf(a) in s.seeded
    ensures AdmissionsSound(e, s.seeded, s.exec.snapshot)
  {
    assert AdmissionSound(e, s.seeded, s.st, a);
  }

  /** Every unfenced admission the target keeps was checked. */
  lemma RebasedIsCaughtUp(h: VnodeHash, s: State, live: set<NodeId>, answers: Answers, a: Admission)
    requires EpochInv(h, s) && MayRebase(h, s, live, answers)
    requires a in s.st.tasks.admissions && a.node !in s.st.fenced && KeyOf(a) in DesiredKeys(DerivedRanges(s.exec.target))
    ensures KeyOf(a) in s.seeded && Pair(a.owner, a.node) in s.exec.caughtUp
  {
    var base := s.st.committed;
    EpochSettingSound(h, base);
    KeptAdmission(EpochSetting(base), s, a);
    var i := PolicyKeepsDesired(h, base, s.exec.target, KeyOf(a));
    ReportNamesAdmission(EpochSetting(base), s.seeded, s.exec.snapshot, DerivedRanges(base)[i], a);
    ValidIsSorted(h, base);
    ReportedIsCaughtUp(s.exec.snapshot, s.exec.target, live, answers, i, a.node);
  }

  /** So its follower holds exactly the owner's writes. */
  lemma RebasedHoldsExactly(h: VnodeHash, s: State, live: set<NodeId>, answers: Answers, a: Admission, w: Write)
    requires EpochInv(h, s) && MayRebase(h, s, live, answers)
    requires a in s.st.tasks.admissions && a.node !in s.st.fenced && KeyOf(a) in DesiredKeys(DerivedRanges(s.exec.target))
    requires InKey(KeyOf(a), w.token)
    ensures w in Held(s, a.owner) <==> w in Held(s, a.node)
  {
    RebasedIsCaughtUp(h, s, live, answers, a);
    CaughtUpIsEqual(EpochSetting(s.st.committed), s, KeyOf(a), w);
  }

  // ----- Publications -----

  lemma MergedState(st: ClusterState, st': ClusterState, id: Coordinator.Identity, carried: seq<Admission>)
    requires Coordinator.PublishMerged(st, st', id, carried)
    ensures st.active.Some? && st'.committed == st.active.value.target && HasPlacement(st'.committed)
    ensures st'.instances == st.instances && st'.fenced == st.fenced
    ensures forall a :: a in st'.tasks.admissions ==>
      a in carried && AdmissionCurrent(a, st'.committed.epoch, DesiredKeys(DerivedRanges(st'.committed)), st.instances)
  {
    CurrentAdmissionsElements(carried, st'.committed.epoch, DesiredKeys(DerivedRanges(st'.committed)), st.instances);
  }

  lemma RebasedState(st: ClusterState, st': ClusterState, id: Coordinator.Identity)
    requires Coordinator.PublishPolicy(st, st', id)
    ensures st.active.Some? && st'.committed == st.active.value.target && HasPlacement(st'.committed)
    ensures st'.instances == st.instances && st'.fenced == st.fenced
    ensures forall a :: a in st'.tasks.admissions ==>
      && AdmissionCurrent(a, st'.committed.epoch, DesiredKeys(DerivedRanges(st'.committed)), st.instances)
      && exists b :: b in st.tasks.admissions && a == b.(epoch := st'.committed.epoch)
  {
    var target := st.active.value.target;
    var rebased := Coordinator.Rebased(st.tasks, target.epoch).admissions;
    CurrentAdmissionsElements(rebased, target.epoch, DesiredKeys(DerivedRanges(target)), st.instances);
    forall a | a in rebased ensures exists b :: b in st.tasks.admissions && a == b.(epoch := target.epoch) {
      var i :| 0 <= i < |rebased| && rebased[i] == a;
      assert st.tasks.admissions[i] in st.tasks.admissions;
    }
  }

  /** The tasks of the admissions whose node is not fenced. */
  function UnfencedKeys(st: ClusterState): set<TaskKey> {
    set a | a in st.tasks.admissions && a.node !in st.fenced :: KeyOf(a)
  }

  /** A direct merge publishes the admissions its proof carried over. */
  ghost predicate MergePublished(h: VnodeHash, s: State, s': State) {
    && MayMerge(h, s) && s.st.active.Some? && s.st.active.value.target == s.exec.target
    && (exists id :: Coordinator.PublishMerged(s.st, s'.st, id, CarriedOver(h, s)))
    && Begins(s, s') && s'.seeded == UnfencedKeys(s'.st)
  }

  /** A policy change publishes with its admissions rebased to the new epoch. */
  ghost predicate PolicyPublished(h: VnodeHash, s: State, s': State) {
    && (exists live, answers :: MayRebase(h, s, live, answers))
    && s.st.active.Some? && s.st.active.value.target == s.exec.target
    && (exists id :: Coordinator.PublishPolicy(s.st, s'.st, id))
    && Begins(s, s') && s'.seeded == UnfencedKeys(s'.st)
  }

  /** Every other publication starts its epoch without admissions. */
  ghost predicate OtherPublished(h: VnodeHash, s: State, s': State) {
    && Valid(h, s'.st.committed) && s'.st.tasks.admissions == []
    && Begins(s, s') && s'.seeded == {}
  }

  lemma CurrentKey(h: VnodeHash, target: Snapshot, a: Admission, instances: map<NodeId, Instance>)
    requires Valid(h, target) && HasPlacement(target)
    requires AdmissionCurrent(a, target.epoch, DesiredKeys(DerivedRanges(target)), instances)
    ensures EpochSetting(target).desired(KeyOf(a)) && a.owner in Ids(target.members) && a.node in Ids(target.members)
  {
    DesiredOfMembers(h, target, KeyOf(a));
  }

  lemma MergedKeyBegins(h: VnodeHash, s: State, s': State, a: Admission)
    requires EpochInv(h, s) && MayMerge(h, s) && Begins(s, s') && a in CarriedOver(h, s)
    requires AdmissionCurrent(a, s.exec.target.epoch, DesiredKeys(DerivedRanges(s.exec.target)), s.st.instances)
    ensures KeySound(EpochSetting(s.exec.target), s', KeyOf(a))
  {
    var base, target, k := s.st.committed, s.exec.target, KeyOf(a);
    CurrentKey(h, target, a, s.st.instances);
    ValidIsSorted(h, target);
    forall w: Write | InKey(k, w.token)
      ensures w in Held(s, k.owner) <==> w in Held(s, k.node)
      ensures w in Held(s, Owner(base.assignments, w.token)) ==> w in Held(s, k.owner)
    {
      DesiredRange(target, k, w.token);
      NewOwnerHoldsExactly(h, s, w);
      CarriedHoldsExactly(h, s, a, w);
    }
    KeyBegins(EpochSetting(base), s, EpochSetting(target), s', k);
  }

  /** When a change is checked, every admission is between nodes that have installed the topology. */
  lemma AdmittedIsInstalled(h: VnodeHash, s: State, a: Admission)
    requires EpochInv(h, s) && s.exec.Checking? && a in s.st.tasks.admissions
    ensures a.owner in s.installed && a.node in s.installed
  {
    assert AdmissionSound(EpochSetting(s.st.committed), s.seeded, s.st, a);
    DesiredOfMembers(h, s.st.committed, KeyOf(a));
  }

  lemma RebasedWrite(h: VnodeHash, s: State, live: set<NodeId>, answers: Answers, a: Admission, w: Write)
    requires EpochInv(h, s) && MayRebase(h, s, live, answers) && InKey(KeyOf(a), w.token)
    requires a in s.st.tasks.admissions && a.node !in s.st.fenced && KeyOf(a) in DesiredKeys(DerivedRanges(s.exec.target))
    ensures w in Held(s, a.owner) <==> w in Held(s, a.node)
    ensures Owner(s.st.committed.assignments, w.token) == a.owner
  {
    ValidIsSorted(h, s.st.committed);
    assert AdmissionSound(EpochSetting(s.st.committed), s.seeded, s.st, a);
    DesiredRange(s.st.committed, KeyOf(a), w.token);
    RebasedHoldsExactly(h, s, live, answers, a, w);
  }

  lemma RebasedKeyBegins(h: VnodeHash, s: State, s': State, live: set<NodeId>, answers: Answers, a: Admission)
    requires EpochInv(h, s) && MayRebase(h, s, live, answers) && Begins(s, s')
    requires a in s.st.tasks.admissions && a.node !in s.st.fenced && KeyOf(a) in DesiredKeys(DerivedRanges(s.exec.target))
    ensures KeySound(EpochSetting(s.exec.target), s', KeyOf(a))
  {
    var base, k := s.st.committed, KeyOf(a);
    forall w: Write | InKey(k, w.token)
      ensures w in Held(s, k.owner) <==> w in Held(s, k.node)
      ensures Owner(base.assignments, w.token) == k.owner
    {
      RebasedWrite(h, s, live, answers, a, w);
    }
    AdmittedIsInstalled(h, s, a);
    KeyBegins(EpochSetting(base), s, EpochSetting(s.exec.target), s', k);
  }

  lemma EpochBegins(e: Setting, s: State, s': State)
    requires Begins(s, s') && s'.seeded == UnfencedKeys(s'.st)
    requires forall a :: a in s'.st.tasks.admissions ==>
      e.desired(KeyOf(a)) && a.node in s'.st.instances && s'.st.instances[a.node] == a.instance
    requires forall a :: a in s'.st.tasks.admissions && a.node !in s'.st.fenced ==> KeySound(e, s', KeyOf(a))
    ensures Inv(e, s')
  {
    forall p ensures StreamSound(e, s', p) {
    }
    forall a | a in s'.st.tasks.admissions ensures AdmissionSound(e, s'.seeded, s'.st, a) {
    }
  }

  lemma MergeKeepsInv(h: VnodeHash, s: State, s': State)
    requires EpochInv(h, s) && MergePublished(h, s, s')
    ensures EpochInv(h, s')
  {
    var id :| Coordinator.PublishMerged(s.st, s'.st, id, CarriedOver(h, s));
    MergedState(s.st, s'.st, id, CarriedOver(h, s));
    forall a | a in s'.st.tasks.admissions ensures KeySound(EpochSetting(s.exec.target), s', KeyOf(a)) {
      MergedKeyBegins(h, s, s', a);
    }
    EpochBegins(EpochSetting(s.exec.target), s, s');
  }

  lemma PolicyKeepsInv(h: VnodeHash, s: State, s': State)
    requires EpochInv(h, s) && PolicyPublished(h, s, s')
    ensures EpochInv(h, s')
  {
    var live, answers :| MayRebase(h, s, live, answers);
    var id :| Coordinator.PublishPolicy(s.st, s'.st, id);
    RebasedState(s.st, s'.st, id);
    forall a | a in s'.st.tasks.admissions && a.node !in s'.st.fenced
      ensures KeySound(EpochSetting(s.exec.target), s', KeyOf(a))
    {
      var b :| b in s.st.tasks.admissions && a == b.(epoch := s'.st.committed.epoch);
      RebasedKeyBegins(h, s, s', live, answers, b);
    }
    EpochBegins(EpochSetting(s.exec.target), s, s');
  }

  lemma OtherKeepsInv(h: VnodeHash, s: State, s': State)
    requires OtherPublished(h, s, s')
    ensures EpochInv(h, s')
  {
    ValidIsSorted(h, s'.st.committed);
    NothingAdmitted(EpochSetting(s'.st.committed), s');
  }

  lemma {:induction false} NoneCurrent(s: seq<Admission>, epoch: nat, desired: seq<TaskKey>, instances: map<NodeId, Instance>)
    requires forall a :: a in s ==> a.epoch != epoch
    ensures CurrentAdmissions(s, epoch, desired, instances) == []
  {
    if s != [] {
      assert s[|s| - 1] in s;
      NoneCurrent(s[..|s| - 1], epoch, desired, instances);
    }
  }

  lemma ReconciledWithoutCurrent(st: ClusterState, target: Snapshot, t: Tasks)
    requires HasPlacement(target) && forall a :: a in t.admissions ==> a.epoch < target.epoch
    ensures Coordinator.ReconciledFor(st, target, t).admissions == []
  {
    NoneCurrent(t.admissions, target.epoch, DesiredKeys(DerivedRanges(target)), st.instances);
  }

  /** A range publication, a failure removal and a recovery carry no admission into the next epoch. */
  lemma OthersCarryNothing(h: VnodeHash, st: ClusterState, st': ClusterState)
    requires forall a :: a in st.tasks.admissions ==> a.epoch < st'.committed.epoch
    requires || (exists id, ranges :: Coordinator.PublishMoved(st, st', id, ranges))
             || (exists id :: Coordinator.PublishFailed(st, st', id))
             || (exists f, c :: Coordinator.Recover(h, st, st', f, c))
    ensures st'.tasks.admissions == []
  {
    if id, ranges :| Coordinator.PublishMoved(st, st', id, ranges) {
      ReconciledWithoutCurrent(st, st'.committed, st.tasks);
    } else if id :| Coordinator.PublishFailed(st, st', id) {
      ReconciledWithoutCurrent(st.(instances := st'.instances), st'.committed, Tasks([], []));
    } else {
      var f, c :| Coordinator.Recover(h, st, st', f, c);
      ReconciledWithoutCurrent(st.(instances := st.instances - {f}), st'.committed, Tasks([], []));
    }
  }

  // ----- Runs -----

  ghost predicate Within(s: State, s': State) {
    && HasPlacement(s.st.committed) && s'.st.committed == s.st.committed
    && Next(EpochSetting(s.st.committed), s, s')
  }

  ghost predicate Step(h: VnodeHash, s: State, s': State) {
    Within(s, s') || MergePublished(h, s, s') || PolicyPublished(h, s, s') || OtherPublished(h, s, s')
  }

  ghost predicate Start(h: VnodeHash, s: State) {
    && Valid(h, s.st.committed) && HasPlacement(s.st.committed) && s.st.tasks.admissions == []
    && s.stream == map[] && s.applied == map[] && s.seeded == {} && s.exec == Idle
  }

  ghost predicate StepAt(h: VnodeHash, run: seq<State>, i: nat)
    requires i + 1 < |run|
  {
    Step(h, run[i], run[i + 1])
  }

  /** Any interleaving, over any number of epochs. */
  ghost predicate IsRun(h: VnodeHash, run: seq<State>) {
    |run| > 0 && Start(h, run[0]) && Steps(h, run)
  }

  ghost predicate Steps(h: VnodeHash, run: seq<State>) {
    forall i :: 0 <= i && i + 1 < |run| ==> StepAt(h, run, i)
  }

  lemma StepKeepsInv(h: VnodeHash, s: State, s': State)
    requires EpochInv(h, s) && Step(h, s, s')
    ensures EpochInv(h, s')
  {
    if Within(s, s') {
      EpochSettingSound(h, s.st.committed);
      NextKeepsInv(EpochSetting(s.st.committed), s, s');
    } else if MergePublished(h, s, s') {
      MergeKeepsInv(h, s, s');
    } else if PolicyPublished(h, s, s') {
      PolicyKeepsInv(h, s, s');
    } else {
      OtherKeepsInv(h, s, s');
    }
  }

  lemma StartHoldsInv(h: VnodeHash, s: State)
    requires Start(h, s)
    ensures EpochInv(h, s)
  {
    NothingAdmitted(EpochSetting(s.st.committed), s);
  }

  lemma StepAtKeepsInv(h: VnodeHash, run: seq<State>, i: nat)
    requires i + 1 < |run| && StepAt(h, run, i) && EpochInv(h, run[i])
    ensures EpochInv(h, run[i + 1])
  {
    StepKeepsInv(h, run[i], run[i + 1]);
  }

  lemma RunKeepsInv(h: VnodeHash, run: seq<State>, i: nat)
    requires IsRun(h, run) && i < |run|
    ensures EpochInv(h, run[i])
  {
    StartHoldsInv(h, run[0]);
    var inv := s => EpochInv(h, s);
    forall j | 0 <= j && j + 1 < |run| && inv(run[j]) ensures Keeps(run, inv, j) {
      StepAtKeepsInv(h, run, j);
    }
    Throughout(run, inv, 0, i);
  }

  // ----- Theorems -----

  /** In every run, whenever a direct merge may publish, the new owner of every token holds exactly the writes its old
      owner holds. */
  lemma NewOwnersHoldEverything(h: VnodeHash, run: seq<State>, i: nat, w: Write)
    requires IsRun(h, run) && i < |run| && MayMerge(h, run[i])
    ensures w in Held(run[i], Owner(run[i].st.committed.assignments, w.token))
       <==> w in Held(run[i], Owner(run[i].exec.target.assignments, w.token))
  {
    RunKeepsInv(h, run, i);
    NewOwnerHoldsExactly(h, run[i], w);
  }

  /** And so does every follower whose admission is carried over, for every token of its range. */
  lemma CarriedFollowersHoldEverything(h: VnodeHash, run: seq<State>, i: nat, a: Admission, w: Write)
    requires IsRun(h, run) && i < |run| && MayMerge(h, run[i])
    requires a in CarriedOver(h, run[i]) && InInterval(a.start, a.end, w.token)
    ensures w in Held(run[i], Owner(run[i].exec.target.assignments, w.token)) <==> w in Held(run[i], a.node)
  {
    RunKeepsInv(h, run, i);
    NewOwnerHoldsExactly(h, run[i], w);
    CarriedHoldsExactly(h, run[i], a, w);
  }

  /** In every run, whenever a policy change may publish, every unfenced admission it rebases names a follower that holds
      exactly its owner's writes. */
  lemma RebasedFollowersHoldEverything(h: VnodeHash, run: seq<State>, i: nat, live: set<NodeId>, answers: Answers,
                                       a: Admission, w: Write)
    requires IsRun(h, run) && i < |run| && MayRebase(h, run[i], live, answers)
    requires a in run[i].st.tasks.admissions && a.node !in run[i].st.fenced
    requires KeyOf(a) in DesiredKeys(DerivedRanges(run[i].exec.target)) && InInterval(a.start, a.end, w.token)
    ensures w in Held(run[i], a.owner) <==> w in Held(run[i], a.node)
  {
    RunKeepsInv(h, run, i);
    RebasedHoldsExactly(h, run[i], live, answers, a, w);
  }

  /** In every state of every run, inherited admissions included, an unfenced admitted follower misses no write of its
      range but those its stream still carries, and holds none its owner does not. */
  lemma AdmittedFollowersMissOnlyTheStream(h: VnodeHash, run: seq<State>, i: nat, a: Admission, w: Write)
    requires IsRun(h, run) && i < |run| && a in run[i].st.tasks.admissions && a.node !in run[i].st.fenced
    requires InInterval(a.start, a.end, w.token)
    ensures var p := Pair(a.owner, a.node);
            w in Held(run[i], a.owner) ==> w in Held(run[i], a.node) || w in Stream(run[i], p)[CursorOf(run[i], p)..]
    ensures w in Held(run[i], a.node) ==> w in Held(run[i], a.owner)
  {
    RunKeepsInv(h, run, i);
    var e := EpochSetting(run[i].st.committed);
    assert AdmissionSound(e, run[i].seeded, run[i].st, a);
    assert KeySound(e, run[i], KeyOf(a));
  }
}
