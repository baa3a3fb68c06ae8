/**
 The followers that a renewed lease names: those whose acknowledgements the owner may count, because they are admitted
 in every range where the policy makes the owner wait for them.
 */
module Renewal {
  import opened Ring
  import opened Topology
  import opened Ranges
  import opened Cluster
  import opened Removal
  import opened Writability

  ghost predicate Placed(s: Snapshot) {
    Sorted(s.assignments) && HasPlacement(s)
  }

  /** The owner's policy waits for this follower in the range. */
  predicate Awaits(st: ClusterState, r: DerivedRange, owner: NodeId, n: NodeId) {
    r.owner == owner && n in Awaited(st.committed.config.policy, r.followers)
  }

  predicate Lacks(st: ClusterState, r: DerivedRange, owner: NodeId, n: NodeId) {
    Awaits(st, r, owner, n) && AdmissionFor(st, r, n).None?
  }

  predicate AwaitedAmong(st: ClusterState, ranges: seq<DerivedRange>, owner: NodeId, n: NodeId) {
    exists r :: r in ranges && Awaits(st, r, owner, n)
  }

  predicate LackedAmong(st: ClusterState, ranges: seq<DerivedRange>, owner: NodeId, n: NodeId) {
    exists r :: r in ranges && Lacks(st, r, owner, n)
  }

  /** Somewhere the owner's policy waits for the follower, and nowhere does it lack its admission. */
  ghost predicate FullyAdmitted(st: ClusterState, owner: NodeId, n: NodeId)
    requires HasPlacement(st.committed)
  {
    && n in st.instances && AwaitedAmong(st, DerivedRanges(st.committed), owner, n)
    && !LackedAmong(st, DerivedRanges(st.committed), owner, n)
  }

  lemma OneMore(st: ClusterState, ranges: seq<DerivedRange>, r: DerivedRange, owner: NodeId, n: NodeId)
    ensures AwaitedAmong(st, ranges + [r], owner, n) <==> AwaitedAmong(st, ranges, owner, n) || Awaits(st, r, owner, n)
    ensures LackedAmong(st, ranges + [r], owner, n) <==> LackedAmong(st, ranges, owner, n) || Lacks(st, r, owner, n)
  {
    assert r in ranges + [r];
  }

  method Gather(st: ClusterState, ranges: seq<DerivedRange>, owner: NodeId)
    returns (candidates: set<NodeId>, missing: set<NodeId>)
    ensures forall n :: n in candidates <==> AwaitedAmong(st, ranges, owner, n)
    ensures forall n :: n in missing <==> LackedAmong(st, ranges, owner, n)
  {
    candidates, missing := {}, {};
    for i := 0 to |ranges|
      invariant forall n :: n in candidates <==> AwaitedAmong(st, ranges[..i], owner, n)
      invariant forall n :: n in missing <==> LackedAmong(st, ranges[..i], owner, n)
    {
      var r := ranges[i];
      if r.owner == owner {
        var awaited := Awaited(st.committed.config.policy, r.followers);
        candidates := candidates + (set n | n in awaited);
        missing := missing + (set n | n in awaited && AdmissionFor(st, r, n).None?);
      }
      assert ranges[..i + 1] == ranges[..i] + [r];
      forall n {
        OneMore(st, ranges[..i], r, owner, n);
      }
    }
    assert ranges[..|ranges|] == ranges;
  }

  /** The followers a renewed owner may take acknowledgements from, with the process each must answer as. */
  method AdmittedFollowers(st: ClusterState, owner: NodeId) returns (out: map<NodeId, Instance>)
    requires Placed(st.committed)
    ensures forall n :: n in out <==> FullyAdmitted(st, owner, n)
    ensures forall n :: n in out ==> n in st.instances && out[n] == st.instances[n]
  {
    var ranges := ComputeDerivedRanges(st.committed);
    var candidates, missing := Gather(st, ranges.value, owner);
    out := map n | n in candidates - missing && n in st.instances :: st.instances[n];
  }

  // ----- Per token -----

  /** A write at this token waits for the follower. */
  ghost predicate WaitsAt(st: ClusterState, t: Token, owner: NodeId, n: NodeId)
    requires HasPlacement(st.committed)
  {
    var replicas := Replicas(st.committed, t);
    Owner(st.committed.assignments, t) == owner && |replicas| > 0 && n in Awaited(st.committed.config.policy, replicas[1..])
  }

  lemma WaitsInItsRange(st: ClusterState, t: Token, owner: NodeId, n: NodeId)
    requires Placed(st.committed)
    ensures RangeOf(st.committed, t) in DerivedRanges(st.committed)
    ensures WaitsAt(st, t, owner, n) <==> Awaits(st, RangeOf(st.committed, t), owner, n)
  {
    RangeOfIsPlacement(st.committed, t);
    var r := RangeOf(st.committed, t);
    assert ([r.owner] + r.followers)[1..] == r.followers;
  }

  /** The follower is admitted for the range of the token. */
  ghost predicate AdmittedAt(st: ClusterState, t: Token, n: NodeId)
    requires HasPlacement(st.committed)
  {
    AdmissionFor(st, RangeOf(st.committed, t), n).Some?
  }

  lemma AwaitedSomewhere(st: ClusterState, owner: NodeId, n: NodeId)
    requires Placed(st.committed)
    ensures AwaitedAmong(st, DerivedRanges(st.committed), owner, n) <==> exists t: Token :: WaitsAt(st, t, owner, n)
  {
    if AwaitedAmong(st, DerivedRanges(st.committed), owner, n) {
      var r :| r in DerivedRanges(st.committed) && Awaits(st, r, owner, n);
      ConstituentOwnEnd(st.committed, r);
      WaitsInItsRange(st, r.end, owner, n);
      assert WaitsAt(st, r.end, owner, n);
    }
    if t: Token :| WaitsAt(st, t, owner, n) {
      WaitsInItsRange(st, t, owner, n);
    }
  }

  lemma LackedSomewhere(st: ClusterState, owner: NodeId, n: NodeId)
    requires Placed(st.committed)
    ensures LackedAmong(st, DerivedRanges(st.committed), owner, n)
       <==> exists t: Token :: WaitsAt(st, t, owner, n) && !AdmittedAt(st, t, n)
  {
    if LackedAmong(st, DerivedRanges(st.committed), owner, n) {
      var r :| r in DerivedRanges(st.committed) && Lacks(st, r, owner, n);
      ConstituentOwnEnd(st.committed, r);
      WaitsInItsRange(st, r.end, owner, n);
      assert WaitsAt(st, r.end, owner, n) && !AdmittedAt(st, r.end, n);
    }
    if t: Token :| WaitsAt(st, t, owner, n) && !AdmittedAt(st, t, n) {
      WaitsInItsRange(st, t, owner, n);
      assert Lacks(st, RangeOf(st.committed, t), owner, n);
    }
  }

  /** A follower is named exactly if some token's writes wait for it, and it is admitted at every token whose do. */
  lemma NamedMeansAdmittedAtEveryToken(st: ClusterState, owner: NodeId, n: NodeId)
    requires Placed(st.committed)
    ensures FullyAdmitted(st, owner, n)
       <==> && n in st.instances && (exists t: Token :: WaitsAt(st, t, owner, n))
            && forall t: Token :: WaitsAt(st, t, owner, n) ==> AdmittedAt(st, t, n)
  {
    AwaitedSomewhere(st, owner, n);
    LackedSomewhere(st, owner, n);
  }
}
