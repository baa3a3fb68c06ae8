/**
 Removing members without copying: each range of the target topology is a union of old ranges, its
 constituents, and its owner must already own or follow every one of them.
 */
module Removal {
  import opened Ring
  import opened Topology
  import opened Placement
  import opened Ranges
  import opened Cluster

  type Instant = nat

  datatype Grant = Grant(instance: Instance, epoch: nat, expiresAt: Instant)

  // ----- Constituents -----

  function Constituents(olds: seq<DerivedRange>, target: DerivedRange): (parts: seq<DerivedRange>)
    ensures forall p :: p in parts <==> p in olds && InInterval(target.start, target.end, p.end)
  {
    if olds == [] then []
    else
      var init, last := olds[..|olds| - 1], olds[|olds| - 1];
      assert olds == init + [last];
      var rest := Constituents(init, target);
      if InInterval(target.start, target.end, last.end) then rest + [last] else rest
  }

  /** Two sorted placements, the second using only boundaries of the first. */
  ghost predicate Coarser(base: Snapshot, target: Snapshot) {
    && Sorted(base.assignments) && HasPlacement(base)
    && Sorted(target.assignments) && HasPlacement(target)
    && forall x :: x in Tokens(target.assignments) ==> x in Tokens(base.assignments)
  }

  lemma RemovalIsCoarser(h: VnodeHash, base: Snapshot, target: Snapshot)
    requires SameRing(h, base, target) && Ids(target.members) <= Ids(base.members)
    ensures Coarser(base, target)
  {
    ValidIsSorted(h, base);
    ValidIsSorted(h, target);
    RemovalFiltersAssignments(h, base, target);
    forall x | x in Tokens(target.assignments) ensures x in Tokens(base.assignments) {
      var i :| 0 <= i < |target.assignments| && target.assignments[i].token == x;
      SurvivorsElements(base.assignments, Ids(base.members) - Ids(target.members), target.assignments[i]);
      var j :| 0 <= j < |base.assignments| && base.assignments[j] == target.assignments[i];
      assert Tokens(base.assignments)[j] == x;
    }
  }

  /** The old range of a token and the token itself lie in the same target range. */
  lemma SameTargetSlot(base: Snapshot, target: Snapshot, t: Token)
    requires Coarser(base, target)
    ensures Slot(Boundaries(target), t) == Slot(Boundaries(target), RangeOf(base, t).end)
  {
    BoundariesAreTokens(base);
    BoundariesAreTokens(target);
    SlotThroughFinerPartition(Boundaries(target), Boundaries(base), t);
  }

  /** Constituents tile their target range: a token lies in the range iff its old range is one of them. */
  lemma ConstituentsTile(base: Snapshot, target: Snapshot, j: nat, t: Token)
    requires Coarser(base, target) && j < |DerivedRanges(target)|
    ensures var r := DerivedRanges(target)[j];
      InInterval(r.start, r.end, t) <==> RangeOf(base, t) in Constituents(DerivedRanges(base), r)
  {
    var old' := RangeOf(base, t);
    RangesTileTheRing(target, j, t);
    RangesTileTheRing(target, j, old'.end);
    SameTargetSlot(base, target, t);
    assert old' in DerivedRanges(base);
  }

  lemma ConstituentOwnEnd(base: Snapshot, part: DerivedRange)
    requires Sorted(base.assignments) && HasPlacement(base) && part in DerivedRanges(base)
    ensures RangeOf(base, part.end) == part
  {
    var i :| 0 <= i < |DerivedRanges(base)| && DerivedRanges(base)[i] == part;
    var b := Boundaries(base);
    BoundariesAreTokens(base);
    CountBelowIs(b, b[i], i);
  }

  lemma OwnerOfRange(s: Snapshot, r: DerivedRange)
    requires Sorted(s.assignments) && HasPlacement(s) && r in DerivedRanges(s)
    ensures Owner(s.assignments, r.end) == r.owner
  {
    ConstituentOwnEnd(s, r);
    RangeOfIsPlacement(s, r.end);
  }

  /** Every target range has constituents: its own end is an old boundary. */
  lemma ConstituentsExist(base: Snapshot, target: Snapshot, j: nat)
    requires Coarser(base, target) && j < |DerivedRanges(target)|
    ensures Constituents(DerivedRanges(base), DerivedRanges(target)[j]) != []
  {
    var r := DerivedRanges(target)[j];
    ConstituentOwnEnd(target, r);
    RangesTileTheRing(target, j, r.end);
    ConstituentsTile(base, target, j, r.end);
  }

  // ----- Admissions as coverage -----

  predicate Covers(st: ClusterState, range: DerivedRange, follower: NodeId, a: Admission) {
    && follower in st.instances && a.instance == st.instances[follower]
    && a.epoch == st.committed.epoch
    && KeyOf(a) == TaskKey(range.start, range.end, range.owner, follower)
    && follower !in st.fenced
  }

  function FindAdmission(s: seq<Admission>, st: ClusterState, range: DerivedRange, follower: NodeId): (r: Option<Admission>)
    ensures r.Some? ==> r.value in s && Covers(st, range, follower, r.value)
    ensures r.None? ==> forall a :: a in s ==> !Covers(st, range, follower, a)
  {
    if s == [] then None
    else if Covers(st, range, follower, s[0]) then Some(s[0])
    else FindAdmission(s[1..], st, range, follower)
  }

  function AdmissionFor(st: ClusterState, range: DerivedRange, follower: NodeId): (r: Option<Admission>)
    ensures r.Some? <==> exists a :: a in st.tasks.admissions && Covers(st, range, follower, a)
    ensures r.Some? ==> r.value in st.tasks.admissions && Covers(st, range, follower, r.value)
  {
    FindAdmission(st.tasks.admissions, st, range, follower)
  }

  /** The new owner of a part already owns it, or is its admitted, unfenced first follower. */
  predicate PartCovered(st: ClusterState, part: DerivedRange, owner: NodeId) {
    || part.owner == owner
    || (part.followers != [] && part.followers[0] == owner && AdmissionFor(st, part, owner).Some?)
  }

  predicate RangeCovered(st: ClusterState, olds: seq<DerivedRange>, r: DerivedRange) {
    var parts := Constituents(olds, r);
    parts != [] && forall p :: p in parts ==> PartCovered(st, p, r.owner)
  }

  ghost predicate Covered(st: ClusterState, target: Snapshot)
    requires HasPlacement(st.committed) && HasPlacement(target)
  {
    forall r :: r in DerivedRanges(target) ==> RangeCovered(st, DerivedRanges(st.committed), r)
  }

  datatype CoverageError = NoConstituents | LacksFirstSuccessorCoverage

  method ProveRangeCovered(st: ClusterState, olds: seq<DerivedRange>, range: DerivedRange)
    returns (r: Result<(), CoverageError>)
    ensures r.Ok? <==> RangeCovered(st, olds, range)
  {
    var parts := Constituents(olds, range);
    if parts == [] { return Err(NoConstituents); }
    for k := 0 to |parts|
      invariant forall i :: 0 <= i < k ==> PartCovered(st, parts[i], range.owner)
    {
      if !PartCovered(st, parts[k], range.owner) { return Err(LacksFirstSuccessorCoverage); }
    }
    return Ok(());
  }

  method ProveRangesCovered(st: ClusterState, olds: seq<DerivedRange>, ranges: seq<DerivedRange>)
    returns (r: Result<(), CoverageError>)
    ensures r.Ok? <==> forall x :: x in ranges ==> RangeCovered(st, olds, x)
  {
    for j := 0 to |ranges|
      invariant forall i :: 0 <= i < j ==> RangeCovered(st, olds, ranges[i])
    {
      r := ProveRangeCovered(st, olds, ranges[j]);
      if r.Err? { return; }
    }
    return Ok(());
  }

  /** `prove_removal_owner_coverage`. */
  method ProveOwnerCoverage(st: ClusterState, target: Snapshot) returns (r: Result<(), CoverageError>)
    requires Sorted(st.committed.assignments) && HasPlacement(st.committed)
    requires Sorted(target.assignments) && HasPlacement(target)
    ensures r.Ok? <==> Covered(st, target)
  {
    r := ProveRangesCovered(st, DerivedRanges(st.committed), DerivedRanges(target));
  }

  /** What coverage means for one token. */
  ghost predicate TokenCovered(st: ClusterState, target: Snapshot, t: Token)
    requires HasPlacement(st.committed) && HasPlacement(target)
  {
    PartCovered(st, RangeOf(st.committed, t), Owner(target.assignments, t))
  }

  /** An accepted proof covers every token, and only a token without coverage can refuse it. */
  lemma CoverageIsPerToken(st: ClusterState, target: Snapshot)
    requires Coarser(st.committed, target)
    ensures Covered(st, target) <==> forall t: Token :: TokenCovered(st, target, t)
  {
    var base := st.committed;
    if Covered(st, target) {
      forall t: Token ensures TokenCovered(st, target, t) {
        CoveredToken(st, target, t);
      }
    }
    if forall t: Token :: TokenCovered(st, target, t) {
      forall j | 0 <= j < |DerivedRanges(target)|
        ensures RangeCovered(st, DerivedRanges(base), DerivedRanges(target)[j])
      {
        ConstituentsExist(base, target, j);
        var r := DerivedRanges(target)[j];
        forall p | p in Constituents(DerivedRanges(base), r) ensures PartCovered(st, p, r.owner) {
          ConstituentOwnEnd(base, p);
          RangesTileTheRing(target, j, p.end);
          RangeOfIsPlacement(target, p.end);
          assert TokenCovered(st, target, p.end);
        }
      }
    }
  }

  lemma CoveredToken(st: ClusterState, target: Snapshot, t: Token)
    requires Coarser(st.committed, target) && Covered(st, target)
    ensures TokenCovered(st, target, t)
  {
    var j := Slot(Boundaries(target), t);
    RangesTileTheRing(target, j, t);
    ConstituentsTile(st.committed, target, j, t);
    RangeOfIsPlacement(target, t);
    assert DerivedRanges(target)[j] in DerivedRanges(target);
  }

  /** In terms of replicas: each token's new owner is its old owner or its old first follower, admitted
      for the token's range, unfenced, and still the registered process. */
  lemma CoverageMeansHandover(st: ClusterState, target: Snapshot, t: Token)
    requires Coarser(st.committed, target) && Covered(st, target)
    ensures var replicas := Replicas(st.committed, t); var owner := Owner(target.assignments, t);
      || owner == Owner(st.committed.assignments, t)
      || (&& |replicas| >= 2 && replicas[1] == owner && owner !in st.fenced
          && exists a :: a in st.tasks.admissions && a.node == owner && a.epoch == st.committed.epoch
                         && InInterval(a.start, a.end, t)
                         && owner in st.instances && a.instance == st.instances[owner])
  {
    var base := st.committed;
    CoveredToken(st, target, t);
    RangeOfIsPlacement(base, t);
    RangesTileTheRing(base, Slot(Boundaries(base), t), t);
    var part := RangeOf(base, t);
    if part.owner != Owner(target.assignments, t) {
      var a := AdmissionFor(st, part, Owner(target.assignments, t)).value;
      assert ([part.owner] + part.followers)[1] == part.followers[0];
    }
  }

  /** Removing one member under a replication factor of at least two is refused only for a missing
      admission: the successor of every token it owned is that token's first follower. */
  lemma SingleRemovalNeedsOnlyAdmissions(h: VnodeHash, st: ClusterState, target: Snapshot, gone: NodeId)
    requires SameRing(h, st.committed, target)
    requires Ids(target.members) == Ids(st.committed.members) - {gone}
    requires st.committed.config.rf >= 2
    ensures Coarser(st.committed, target)
    ensures Covered(st, target)
       <==> forall t: Token :: Owner(st.committed.assignments, t) == gone
                     ==> AdmissionFor(st, RangeOf(st.committed, t), Owner(target.assignments, t)).Some?
  {
    RemovalIsCoarser(h, st.committed, target);
    CoverageIsPerToken(st, target);
    forall t: Token
      ensures TokenCovered(st, target, t)
         <==> (Owner(st.committed.assignments, t) == gone
               ==> AdmissionFor(st, RangeOf(st.committed, t), Owner(target.assignments, t)).Some?)
    {
      SuccessorIsFirstFollower(h, st.committed, target, gone, t);
    }
  }

  lemma OwnerAfterSingleRemoval(h: VnodeHash, base: Snapshot, target: Snapshot, gone: NodeId, t: Token)
    requires SameRing(h, base, target) && Ids(target.members) == Ids(base.members) - {gone}
    ensures |target.assignments| > 0
    ensures var p := Preference(base.assignments, t);
      && |p| == |base.members| > 0
      && if p[0] != gone then Owner(target.assignments, t) == p[0]
         else |p| >= 2 && Owner(target.assignments, t) == p[1] && p[1] != gone
  {
    ValidIsSorted(h, target);
    PreferenceListsMembers(h, base, t);
    var p := Preference(base.assignments, t);
    if p[0] != gone {
      assert p[0] in Elements(p);
      FirstSurvivorOwns(h, base, target, t, 0);
    } else {
      RemainingCount(base, target, gone);
      assert p[1] in Elements(p) && p[1] != gone;
      FirstSurvivorOwns(h, base, target, t, 1);
    }
  }

  lemma RemainingCount(base: Snapshot, target: Snapshot, gone: NodeId)
    requires MembersSorted(base.members) && MembersSorted(target.members)
    requires Ids(target.members) == Ids(base.members) - {gone} && |target.members| > 0
    ensures |base.members| >= 2 || gone !in Ids(base.members)
  {
    MemberCount(base.members);
    MemberCount(target.members);
    if gone in Ids(base.members) {
      assert Ids(target.members) + {gone} == Ids(base.members);
    }
  }

  lemma SuccessorIsFirstFollower(h: VnodeHash, base: Snapshot, target: Snapshot, gone: NodeId, t: Token)
    requires SameRing(h, base, target) && Ids(target.members) == Ids(base.members) - {gone} && base.config.rf >= 2
    ensures Sorted(base.assignments) && HasPlacement(base) && HasPlacement(target)
    ensures var part := RangeOf(base, t);
      && part.owner == Owner(base.assignments, t)
      && (part.owner != gone ==> Owner(target.assignments, t) == part.owner)
      && (part.owner == gone ==> && part.followers != [] && part.followers[0] == Owner(target.assignments, t)
                                 && Owner(target.assignments, t) != gone)
  {
    ValidIsSorted(h, base);
    ValidIsSorted(h, target);
    OwnerAfterSingleRemoval(h, base, target, gone, t);
    OwnerLeadsPreference(base.assignments, t);
    RangeOfIsPlacement(base, t);
    ReplicaCount(h, base, t);
    var part := RangeOf(base, t);
    if part.owner == gone {
      assert |Replicas(base, t)| >= 2;
      assert ([part.owner] + part.followers)[1] == Replicas(base, t)[1];
    }
  }

  // ----- Leases of the new owners -----

  predicate HasLease(st: ClusterState, grants: map<NodeId, Grant>, node: NodeId, now: Instant) {
    && node in st.instances && node !in st.fenced
    && node in grants && grants[node].epoch == st.committed.epoch
    && grants[node].instance == st.instances[node] && grants[node].expiresAt > now
  }

  datatype LeaseError = NotRegistered | NoCurrentLease

  method AllOwnersLeased(st: ClusterState, ranges: seq<DerivedRange>, grants: map<NodeId, Grant>, now: Instant)
    returns (r: Result<(), LeaseError>)
    ensures r.Ok? <==> forall x :: x in ranges ==> HasLease(st, grants, x.owner, now)
  {
    for j := 0 to |ranges|
      invariant forall i :: 0 <= i < j ==> HasLease(st, grants, ranges[i].owner, now)
    {
      if !HasLease(st, grants, ranges[j].owner, now) {
        assert ranges[j] in ranges;
        if ranges[j].owner !in st.instances { return Err(NotRegistered); }
        return Err(NoCurrentLease);
      }
    }
    return Ok(());
  }

  /** The range owners are exactly the token owners. */
  lemma OwnersLeasedPerToken(st: ClusterState, target: Snapshot, grants: map<NodeId, Grant>, now: Instant)
    requires Sorted(target.assignments) && HasPlacement(target)
    ensures (forall x :: x in DerivedRanges(target) ==> HasLease(st, grants, x.owner, now))
       <==> forall t: Token :: HasLease(st, grants, Owner(target.assignments, t), now)
  {
    forall x | x in DerivedRanges(target) ensures Owner(target.assignments, x.end) == x.owner {
      OwnerOfRange(target, x);
    }
    forall t: Token ensures exists x :: x in DerivedRanges(target) && x.owner == Owner(target.assignments, t) {
      RangeOfIsPlacement(target, t);
      assert RangeOf(target, t) in DerivedRanges(target);
    }
  }

  /** `prove_removal_owner_leases`: accepted iff the new owner of every token holds a current lease. */
  method ProveOwnerLeases(st: ClusterState, target: Snapshot, grants: map<NodeId, Grant>, now: Instant)
    returns (r: Result<(), LeaseError>)
    requires Sorted(target.assignments) && HasPlacement(target)
    ensures r.Ok? <==> forall t: Token :: HasLease(st, grants, Owner(target.assignments, t), now)
  {
    OwnersLeasedPerToken(st, target, grants, now);
    r := AllOwnersLeased(st, DerivedRanges(target), grants, now);
  }
}
