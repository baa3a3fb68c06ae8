/**
 Direct merge: the proof, over a durable snapshot, that a removal can be published without copying,
 and the replica admissions it carries over to the new epoch.
 */
module Merge {
  import opened Ring
  import opened Topology
  import opened Ranges
  import opened Cluster
  import opened Removal

  /** The parts of the state a merge proof reads. */
  predicate SameProofBasis(a: ClusterState, b: ClusterState) {
    && a.committed == b.committed && a.instances == b.instances && a.tasks.admissions == b.tasks.admissions
    && a.fenced == b.fenced
  }

  /** A replication stream from an owner to a follower. */
  datatype Pair = Pair(owner: NodeId, follower: NodeId)

  datatype Candidate = Candidate(admission: Admission, pairs: set<Pair>)

  /** A merged admission's digest is a hash of its constituents' digests; only that it is not empty
      matters. */
  const MERGED_DIGEST: Digest := 1

  function RequiredMergeFollowers(target: Snapshot): nat {
    var policyFollowers :=
      match target.config.policy
      case OwnerOnly => 0
      case FirstSuccessor => 1
      case AllReplicas => if target.config.rf == 0 then 0 else target.config.rf - 1;
    var guard := target.config.guard;
    Max(Max(policyFollowers, if guard.minAdmittedCopies == 0 then 0 else guard.minAdmittedCopies - 1),
        guard.minHealthyFollowers)
  }

  /** `can_prepare_direct_merge`: a pure shrink whose merged owners and required followers are natural
      successors of every part. */
  predicate CanPrepareDirectMerge(base: Snapshot, target: Snapshot)
    requires HasPlacement(base) && HasPlacement(target)
  {
    var needed := RequiredMergeFollowers(target);
    && |target.members| < |base.members| && target.config == base.config
    && (forall m :: m in target.members ==> m in base.members)
    && forall r :: r in DerivedRanges(target) ==> CanPrepareRange(DerivedRanges(base), r, needed)
  }

  predicate CanPrepareRange(olds: seq<DerivedRange>, r: DerivedRange, needed: nat) {
    var parts := Constituents(olds, r);
    && parts != [] && |r.followers| >= needed
    && forall p :: p in parts ==>
         && (p.owner == r.owner || (p.followers != [] && p.followers[0] == r.owner))
         && forall f :: f in Take(r.followers, needed) ==> p.owner == f || f in p.followers
  }

  // ----- One follower of one target range -----

  /** The follower owns the part or is admitted for it. */
  predicate HoldsPart(st: ClusterState, part: DerivedRange, follower: NodeId) {
    part.owner == follower || AdmissionFor(st, part, follower).Some?
  }

  /** The streams that must be caught up for the follower to hold the parts. */
  function PartPairs(parts: seq<DerivedRange>, follower: NodeId): set<Pair> {
    set p | p in parts && p.owner != follower :: Pair(p.owner, follower)
  }

  predicate IsCandidate(st: ClusterState, parts: seq<DerivedRange>, follower: NodeId) {
    && follower in st.instances && follower !in st.fenced
    && forall p :: p in parts ==> HoldsPart(st, p, follower)
  }

  function CandidateFor(st: ClusterState, epoch: nat, r: DerivedRange, parts: seq<DerivedRange>, follower: NodeId): Candidate
    requires follower in st.instances
  {
    Candidate(Admission(epoch, r.start, r.end, r.owner, follower, st.instances[follower], 0, 0, MERGED_DIGEST),
              PartPairs(parts, follower))
  }

  /** The loop over the parts that stops at the first one without an admission. */
  method CollectPairs(st: ClusterState, parts: seq<DerivedRange>, follower: NodeId)
    returns (complete: bool, pairs: set<Pair>)
    ensures complete <==> forall p :: p in parts ==> HoldsPart(st, p, follower)
    ensures complete ==> pairs == PartPairs(parts, follower)
  {
    pairs := {};
    for k := 0 to |parts|
      invariant forall i :: 0 <= i < k ==> HoldsPart(st, parts[i], follower)
      invariant pairs == PartPairs(parts[..k], follower)
    {
      assert parts[..k + 1] == parts[..k] + [parts[k]];
      if parts[k].owner != follower {
        if AdmissionFor(st, parts[k], follower).None? {
          assert parts[k] in parts && !HoldsPart(st, parts[k], follower);
          return false, pairs;
        }
        pairs := pairs + {Pair(parts[k].owner, follower)};
      }
    }
    assert parts[..|parts|] == parts;
    return true, pairs;
  }

  /** The candidates among a target range's followers, in placement order. */
  function RangeCandidates(st: ClusterState, epoch: nat, r: DerivedRange, parts: seq<DerivedRange>, followers: seq<NodeId>)
    : seq<Candidate>
  {
    if followers == [] then []
    else
      var f := followers[|followers| - 1];
      var rest := RangeCandidates(st, epoch, r, parts, followers[..|followers| - 1]);
      if IsCandidate(st, parts, f) then rest + [CandidateFor(st, epoch, r, parts, f)] else rest
  }

  function AllCandidates(st: ClusterState, epoch: nat, olds: seq<DerivedRange>, ranges: seq<DerivedRange>): seq<Candidate> {
    if ranges == [] then []
    else
      var r := ranges[|ranges| - 1];
      AllCandidates(st, epoch, olds, ranges[..|ranges| - 1])
        + RangeCandidates(st, epoch, r, Constituents(olds, r), r.followers)
  }

  /** The streams ownership itself depends on. */
  function OwnerPairs(olds: seq<DerivedRange>, ranges: seq<DerivedRange>): set<Pair> {
    set r, p | r in ranges && p in Constituents(olds, r) && p.owner != r.owner :: Pair(p.owner, r.owner)
  }

  /** The streams some followers of one range depend on. */
  function FollowersPairs(parts: seq<DerivedRange>, followers: seq<NodeId>): set<Pair> {
    set p, f | p in parts && f in followers && p.owner != f :: Pair(p.owner, f)
  }

  /** The streams the required followers of all ranges depend on. */
  function NeededPairs(olds: seq<DerivedRange>, ranges: seq<DerivedRange>, needed: nat): set<Pair> {
    if ranges == [] then {}
    else
      var r := ranges[|ranges| - 1];
      NeededPairs(olds, ranges[..|ranges| - 1], needed) + FollowersPairs(Constituents(olds, r), Take(r.followers, needed))
  }

  lemma {:induction false} NeededPairsSnoc(olds: seq<DerivedRange>, ranges: seq<DerivedRange>, j: nat, needed: nat)
    requires j < |ranges|
    ensures NeededPairs(olds, ranges[..j + 1], needed)
         == NeededPairs(olds, ranges[..j], needed)
            + FollowersPairs(Constituents(olds, ranges[j]), Take(ranges[j].followers, needed))
  {
    assert ranges[..j + 1][..j] == ranges[..j];
  }

  predicate NeededFollowersHold(st: ClusterState, olds: seq<DerivedRange>, r: DerivedRange, needed: nat) {
    && |r.followers| >= needed
    && forall f :: f in Take(r.followers, needed) ==> IsCandidate(st, Constituents(olds, r), f)
  }

  /** When `merge_proof` succeeds. */
  ghost predicate Mergeable(st: ClusterState, target: Snapshot)
    requires HasPlacement(st.committed) && HasPlacement(target)
  {
    && Covered(st, target)
    && forall r :: r in DerivedRanges(target)
          ==> NeededFollowersHold(st, DerivedRanges(st.committed), r, RequiredMergeFollowers(target))
  }

  function RequiredPairs(st: ClusterState, target: Snapshot): set<Pair>
    requires HasPlacement(st.committed) && HasPlacement(target)
  {
    OwnerPairs(DerivedRanges(st.committed), DerivedRanges(target))
      + NeededPairs(DerivedRanges(st.committed), DerivedRanges(target), RequiredMergeFollowers(target))
  }

  function Candidates(st: ClusterState, target: Snapshot): seq<Candidate>
    requires HasPlacement(st.committed) && HasPlacement(target)
  {
    AllCandidates(st, target.epoch, DerivedRanges(st.committed), DerivedRanges(target))
  }

  // ----- The algorithm -----

  method CollectRangeCandidates(st: ClusterState, epoch: nat, r: DerivedRange, parts: seq<DerivedRange>)
    returns (found: seq<Candidate>)
    ensures found == RangeCandidates(st, epoch, r, parts, r.followers)
  {
    found := [];
    for i := 0 to |r.followers|
      invariant found == RangeCandidates(st, epoch, r, parts, r.followers[..i])
    {
      assert r.followers[..i + 1][..i] == r.followers[..i];
      var f := r.followers[i];
      if f in st.instances && f !in st.fenced {
        var complete, pairs := CollectPairs(st, parts, f);
        if complete {
          var admission := Admission(epoch, r.start, r.end, r.owner, f, st.instances[f], 0, 0, MERGED_DIGEST);
          found := found + [Candidate(admission, pairs)];
        }
      }
    }
    assert r.followers[..|r.followers|] == r.followers;
  }

  lemma {:induction false} OwnerPairsSnoc(olds: seq<DerivedRange>, ranges: seq<DerivedRange>, r: DerivedRange)
    ensures OwnerPairs(olds, ranges + [r]) == OwnerPairs(olds, ranges) + PartPairs(Constituents(olds, r), r.owner)
  {
    var ext := ranges + [r];
    assert forall x :: x in ext <==> x in ranges || x == r;
    forall q | q in OwnerPairs(olds, ranges) + PartPairs(Constituents(olds, r), r.owner) ensures q in OwnerPairs(olds, ext) {
    }
  }

  /** The first pass of `merge_proof`: owner streams and candidates of every target range. */
  method CollectCandidates(st: ClusterState, epoch: nat, olds: seq<DerivedRange>, ranges: seq<DerivedRange>)
    returns (required: set<Pair>, found: seq<Candidate>)
    ensures required == OwnerPairs(olds, ranges)
    ensures found == AllCandidates(st, epoch, olds, ranges)
  {
    required, found := {}, [];
    for j := 0 to |ranges|
      invariant required == OwnerPairs(olds, ranges[..j])
      invariant found == AllCandidates(st, epoch, olds, ranges[..j])
    {
      assert ranges[..j + 1] == ranges[..j] + [ranges[j]] && ranges[..j + 1][..j] == ranges[..j];
      var parts := Constituents(olds, ranges[j]);
      OwnerPairsSnoc(olds, ranges[..j], ranges[j]);
      required := required + PartPairs(parts, ranges[j].owner);
      var more := CollectRangeCandidates(st, epoch, ranges[j], parts);
      found := found + more;
    }
    assert ranges[..|ranges|] == ranges;
  }

  function FindCandidate(s: seq<Candidate>, r: DerivedRange, f: NodeId): (c: Option<Candidate>)
    ensures c.Some? ==> c.value in s && c.value.admission.start == r.start && c.value.admission.end == r.end
                        && c.value.admission.node == f
    ensures c.None? ==>
      forall x :: x in s ==> !(x.admission.start == r.start && x.admission.end == r.end && x.admission.node == f)
  {
    if s == [] then None
    else if s[0].admission.start == r.start && s[0].admission.end == r.end && s[0].admission.node == f then Some(s[0])
    else FindCandidate(s[1..], r, f)
  }

  lemma {:induction false} RangeCandidateElements(st: ClusterState, epoch: nat, r: DerivedRange, parts: seq<DerivedRange>,
                                                  followers: seq<NodeId>, c: Candidate)
    ensures c in RangeCandidates(st, epoch, r, parts, followers)
       <==> exists f :: f in followers && IsCandidate(st, parts, f) && c == CandidateFor(st, epoch, r, parts, f)
  {
    if followers != [] {
      var init, last := followers[..|followers| - 1], followers[|followers| - 1];
      RangeCandidateElements(st, epoch, r, parts, init, c);
      assert followers == init + [last];
    }
  }

  lemma {:induction false} CandidateElements(st: ClusterState, epoch: nat, olds: seq<DerivedRange>, ranges: seq<DerivedRange>,
                                             c: Candidate)
    ensures c in AllCandidates(st, epoch, olds, ranges)
       <==> exists r, f :: r in ranges && f in r.followers && IsCandidate(st, Constituents(olds, r), f)
                           && c == CandidateFor(st, epoch, r, Constituents(olds, r), f)
  {
    if ranges != [] {
      var init, last := ranges[..|ranges| - 1], ranges[|ranges| - 1];
      CandidateElements(st, epoch, olds, init, c);
      RangeCandidateElements(st, epoch, last, Constituents(olds, last), last.followers, c);
      assert ranges == init + [last];
    }
  }

  /** Ranges are told apart by their ends. */
  ghost predicate DistinctEnds(ranges: seq<DerivedRange>) {
    forall a, b :: a in ranges && b in ranges && a.end == b.end ==> a == b
  }

  /** Looking a follower up among the candidates finds its own, if it is one. */
  lemma {:induction false} FindIsCandidate(st: ClusterState, epoch: nat, olds: seq<DerivedRange>,
                                           ranges: seq<DerivedRange>, r: DerivedRange, f: NodeId)
    requires DistinctEnds(ranges) && r in ranges && f in r.followers
    ensures var parts := Constituents(olds, r); var found := FindCandidate(AllCandidates(st, epoch, olds, ranges), r, f);
      && (found.Some? <==> IsCandidate(st, parts, f))
      && (found.Some? ==> found.value == CandidateFor(st, epoch, r, parts, f))
  {
    var all := AllCandidates(st, epoch, olds, ranges);
    var found := FindCandidate(all, r, f);
    if found.Some? {
      CandidateElements(st, epoch, olds, ranges, found.value);
    }
    if IsCandidate(st, Constituents(olds, r), f) {
      CandidateElements(st, epoch, olds, ranges, CandidateFor(st, epoch, r, Constituents(olds, r), f));
    }
  }

  datatype MergeError = LacksOwnerCoverage | CannotSatisfyGuard | RequiredFollowerLacksCoverage

  lemma FollowersPairsSnoc(parts: seq<DerivedRange>, followers: seq<NodeId>, f: NodeId)
    ensures FollowersPairs(parts, followers + [f]) == FollowersPairs(parts, followers) + PartPairs(parts, f)
  {
    var ext := followers + [f];
    assert forall x :: x in ext <==> x in followers || x == f;
    forall p, g | p in parts && g in followers && p.owner != g ensures Pair(p.owner, g) in FollowersPairs(parts, ext) {
      assert g in ext;
    }
    forall p | p in parts && p.owner != f ensures Pair(p.owner, f) in FollowersPairs(parts, ext) {
      assert f in ext;
    }
  }

  /** One range of the second pass: its required followers must be candidates, and their streams join
      the required ones. */
  method RequireFollowers(st: ClusterState, epoch: nat, olds: seq<DerivedRange>, ranges: seq<DerivedRange>,
                          r: DerivedRange, wanted: seq<NodeId>, found: seq<Candidate>)
    returns (ok: bool, pairs: set<Pair>)
    requires DistinctEnds(ranges) && r in ranges && forall f :: f in wanted ==> f in r.followers
    requires found == AllCandidates(st, epoch, olds, ranges)
    ensures ok <==> forall f :: f in wanted ==> IsCandidate(st, Constituents(olds, r), f)
    ensures ok ==> pairs == FollowersPairs(Constituents(olds, r), wanted)
  {
    pairs := {};
    for i := 0 to |wanted|
      invariant forall f :: f in wanted[..i] ==> IsCandidate(st, Constituents(olds, r), f)
      invariant pairs == FollowersPairs(Constituents(olds, r), wanted[..i])
    {
      assert wanted[..i + 1] == wanted[..i] + [wanted[i]] && wanted[i] in wanted;
      FindIsCandidate(st, epoch, olds, ranges, r, wanted[i]);
      var c := FindCandidate(found, r, wanted[i]);
      if c.None? { return false, pairs; }
      FollowersPairsSnoc(Constituents(olds, r), wanted[..i], wanted[i]);
      pairs := pairs + c.value.pairs;
    }
    assert wanted[..|wanted|] == wanted;
    return true, pairs;
  }

  /** The second pass over all ranges. */
  /** The first needed followers of one range, each of which must be a candidate. */
  method RequireNeeded(st: ClusterState, epoch: nat, olds: seq<DerivedRange>, ranges: seq<DerivedRange>, r: DerivedRange,
                       needed: nat, found: seq<Candidate>)
    returns (pairs: Result<set<Pair>, MergeError>)
    requires DistinctEnds(ranges) && r in ranges && found == AllCandidates(st, epoch, olds, ranges)
    ensures pairs.Ok? <==> NeededFollowersHold(st, olds, r, needed)
    ensures pairs.Ok? ==> pairs.value == FollowersPairs(Constituents(olds, r), Take(r.followers, needed))
  {
    if |r.followers| < needed { return Err(CannotSatisfyGuard); }
    var ok, more := RequireFollowers(st, epoch, olds, ranges, r, Take(r.followers, needed), found);
    return if ok then Ok(more) else Err(RequiredFollowerLacksCoverage);
  }

  method RequireAllFollowers(st: ClusterState, epoch: nat, olds: seq<DerivedRange>, ranges: seq<DerivedRange>, needed: nat,
                             found: seq<Candidate>)
    returns (r: Result<set<Pair>, MergeError>)
    requires DistinctEnds(ranges) && found == AllCandidates(st, epoch, olds, ranges)
    ensures r.Ok? <==> forall x :: x in ranges ==> NeededFollowersHold(st, olds, x, needed)
    ensures r.Ok? ==> r.value == NeededPairs(olds, ranges, needed)
  {
    var pairs: set<Pair> := {};
    for j := 0 to |ranges|
      invariant forall x :: x in ranges[..j] ==> NeededFollowersHold(st, olds, x, needed)
      invariant pairs == NeededPairs(olds, ranges[..j], needed)
    {
      assert ranges[..j + 1] == ranges[..j] + [ranges[j]] && ranges[j] in ranges;
      var more := RequireNeeded(st, epoch, olds, ranges, ranges[j], needed, found);
      if more.Err? { return Err(more.error); }
      NeededPairsSnoc(olds, ranges, j, needed);
      pairs := pairs + more.value;
    }
    assert ranges[..|ranges|] == ranges;
    return Ok(pairs);
  }

  lemma DerivedRangesDistinctEnds(s: Snapshot)
    requires Sorted(s.assignments) && HasPlacement(s)
    ensures DistinctEnds(DerivedRanges(s))
  {
    forall a, b | a in DerivedRanges(s) && b in DerivedRanges(s) && a.end == b.end ensures a == b {
      ConstituentOwnEnd(s, a);
      ConstituentOwnEnd(s, b);
    }
  }

  /** `merge_proof`: succeeds iff ownership is covered and every target range's first required followers
      hold all its parts; then it returns exactly the streams both depend on and all candidates. */
  method MergeProof(st: ClusterState, target: Snapshot) returns (r: Result<(set<Pair>, seq<Candidate>), MergeError>)
    requires Sorted(st.committed.assignments) && HasPlacement(st.committed)
    requires Sorted(target.assignments) && HasPlacement(target)
    ensures r.Ok? <==> Mergeable(st, target)
    ensures r.Ok? ==> r.value == (RequiredPairs(st, target), Candidates(st, target))
  {
    var coverage := ProveOwnerCoverage(st, target);
    if coverage.Err? { return Err(LacksOwnerCoverage); }
    var olds, ranges := DerivedRanges(st.committed), DerivedRanges(target);
    DerivedRangesDistinctEnds(target);
    var required, found := CollectCandidates(st, target.epoch, olds, ranges);
    var more := RequireAllFollowers(st, target.epoch, olds, ranges, RequiredMergeFollowers(target), found);
    if more.Err? { return Err(more.error); }
    return Ok((required + more.value, found));
  }

  lemma {:induction false} NeededPairsElements(olds: seq<DerivedRange>, ranges: seq<DerivedRange>, needed: nat,
                                               r: DerivedRange, p: DerivedRange, f: NodeId)
    requires r in ranges && p in Constituents(olds, r) && f in Take(r.followers, needed) && p.owner != f
    ensures Pair(p.owner, f) in NeededPairs(olds, ranges, needed)
  {
    var init, last := ranges[..|ranges| - 1], ranges[|ranges| - 1];
    assert ranges == init + [last];
    if r in init {
      NeededPairsElements(olds, init, needed, r, p, f);
    }
  }

  // ----- The admissions carried over -----

  function Carried(s: seq<Candidate>, caughtUp: set<Pair>): seq<Admission> {
    if s == [] then []
    else
      var rest := Carried(s[..|s| - 1], caughtUp);
      if s[|s| - 1].pairs <= caughtUp then rest + [s[|s| - 1].admission] else rest
  }

  lemma {:induction false} CarriedElements(s: seq<Candidate>, caughtUp: set<Pair>, a: Admission)
    ensures a in Carried(s, caughtUp) <==> exists c :: c in s && c.pairs <= caughtUp && c.admission == a
  {
    if s != [] {
      CarriedElements(s[..|s| - 1], caughtUp, a);
      assert s == s[..|s| - 1] + [s[|s| - 1]];
    }
  }

  /** What `publish_removed_topology` makes of the replica metadata in a graceful removal: the carried
      admissions, no repairs, reconciled at the new epoch. */
  function PublishedTasks(st: ClusterState, target: Snapshot, carried: seq<Admission>): Tasks
    requires HasPlacement(target)
  {
    Reconciled(Tasks(carried, []), target.epoch, DesiredKeys(DerivedRanges(target)), st.instances)
  }

  /** Once the required streams are caught up, every target range keeps its first required followers as
      admissions, and they survive reconciliation at the new epoch. */
  lemma {:induction false} NeededPairsCover(st: ClusterState, epoch: nat, olds: seq<DerivedRange>,
                                            ranges: seq<DerivedRange>, needed: nat, r: DerivedRange, f: NodeId,
                                            caughtUp: set<Pair>)
    requires IsCandidate(st, Constituents(olds, r), f) && NeededPairs(olds, ranges, needed) <= caughtUp
    requires r in ranges && f in Take(r.followers, needed)
    ensures CandidateFor(st, epoch, r, Constituents(olds, r), f).pairs <= caughtUp
  {
    var parts := Constituents(olds, r);
    forall q | q in CandidateFor(st, epoch, r, parts, f).pairs ensures q in caughtUp {
      var p :| p in parts && p.owner != f && q == Pair(p.owner, f);
      NeededPairsElements(olds, ranges, needed, r, p, f);
    }
  }

  lemma {:induction false} RequiredFollowersSurvive(st: ClusterState, target: Snapshot, caughtUp: set<Pair>,
                                                    r: DerivedRange, f: NodeId)
    requires Sorted(target.assignments) && HasPlacement(st.committed) && HasPlacement(target)
    requires Mergeable(st, target) && RequiredPairs(st, target) <= caughtUp
    requires r in DerivedRanges(target) && f in Take(r.followers, RequiredMergeFollowers(target))
    ensures var published := PublishedTasks(st, target, Carried(Candidates(st, target), caughtUp));
      exists a :: && a in published.admissions && a.epoch == target.epoch
                  && KeyOf(a) == TaskKey(r.start, r.end, r.owner, f)
                  && f in st.instances && a.instance == st.instances[f]
  {
    var olds, ranges, needed := DerivedRanges(st.committed), DerivedRanges(target), RequiredMergeFollowers(target);
    var parts, carried := Constituents(olds, r), Carried(Candidates(st, target), caughtUp);
    assert NeededFollowersHold(st, olds, r, needed);
    assert f in r.followers;
    var c := CandidateFor(st, target.epoch, r, parts, f);
    CandidateElements(st, target.epoch, olds, ranges, c);
    NeededPairsCover(st, target.epoch, olds, ranges, needed, r, f, caughtUp);
    CarriedElements(Candidates(st, target), caughtUp, c.admission);
    DesiredElements(ranges, KeyOf(c.admission));
    CurrentAdmissionsElements(carried, target.epoch, DesiredKeys(ranges), st.instances);
    assert AdmissionCurrent(c.admission, target.epoch, DesiredKeys(ranges), st.instances);
  }
}
