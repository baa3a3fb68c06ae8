/**
 Who may be written to. The coordinator reports for each derived range whether it is writable; an owner decides for each
 token which followers a write must wait for. The two agree.
 */
module Writability {
  import opened Ring
  import opened Topology
  import opened Ranges
  import opened Cluster

  datatype FollowerStatus = FollowerStatus(node: NodeId, admitted: bool, lagKnown: bool, lagMillis: nat, head: nat,
                                           cursor: nat, leased: bool, healthy: bool)

  datatype RangeStatus = RangeStatus(start: Token, end: Token, owner: NodeId, followers: seq<FollowerStatus>,
                                     ownerLeased: bool, writable: bool)

  datatype Status = Status(epoch: nat, ranges: seq<RangeStatus>)

  // ----- Moving ranges -----

  /** `intervals_overlap`: one interval contains the other's end. */
  predicate IntervalsOverlap(a0: Token, a1: Token, b0: Token, b1: Token) {
    InInterval(a0, a1, b1) || InInterval(b0, b1, a1)
  }

  /** That is exactly when some token lies in both, however either wraps. */
  lemma OverlapMeansShared(a0: Token, a1: Token, b0: Token, b1: Token)
    ensures IntervalsOverlap(a0, a1, b0, b1) <==> exists t: Token :: InInterval(a0, a1, t) && InInterval(b0, b1, t)
  {
    if InInterval(a0, a1, b1) {
      assert InInterval(b0, b1, b1);
    } else if InInterval(b0, b1, a1) {
      assert InInterval(a0, a1, a1);
    }
  }

  // ----- The coordinator's report -----

  /** A stream's head, read from its owner, and its follower's cursor, read after it, with the lag between them. */
  datatype StreamProgress = StreamProgress(head: nat, cursor: nat, lagMillis: nat)

  /** What the two nodes of a stream answered about it, if both were asked and both answered. */
  type Answers = (NodeId, NodeId) -> Option<StreamProgress>

  /** A stream's progress is only read between two leased, registered nodes with a repair task. */
  function ProgressOf(st: ClusterState, live: set<NodeId>, answers: Answers, owner: NodeId, follower: NodeId)
    : Option<StreamProgress>
  {
    if (exists r :: r in st.tasks.repairs && r.owner == owner && r.node == follower)
       && owner in live && follower in live && owner in st.instances && follower in st.instances
    then answers(owner, follower) else None
  }

  /** The admission stored under a key; a later entry replaces an earlier one. */
  function StoredAdmission(s: seq<Admission>, key: TaskKey): Option<Admission> {
    if s == [] then None
    else if KeyOf(s[|s| - 1]) == key then Some(s[|s| - 1])
    else StoredAdmission(s[..|s| - 1], key)
  }

  predicate Admitted(st: ClusterState, r: DerivedRange, node: NodeId) {
    var a := StoredAdmission(st.tasks.admissions, TaskKey(r.start, r.end, r.owner, node));
    a.Some? && node in st.instances && st.instances[node] == a.value.instance && node !in st.fenced
  }

  function FollowerStatusOf(st: ClusterState, live: set<NodeId>, answers: Answers, r: DerivedRange, node: NodeId)
    : FollowerStatus
  {
    var progress := ProgressOf(st, live, answers, r.owner, node);
    var admission := StoredAdmission(st.tasks.admissions, TaskKey(r.start, r.end, r.owner, node));
    var admitted := Admitted(st, r, node);
    var lag := if progress.Some? then progress.value.lagMillis else 0;
    FollowerStatus(node, admitted, progress.Some?, lag, if progress.Some? then progress.value.head else 0,
                   if progress.Some? then progress.value.cursor else if admitted then admission.value.cursor else 0,
                   node in live,
                   admitted && node in live && progress.Some? && lag <= st.committed.config.guard.maxLagMillis)
  }

  function FollowersOf(st: ClusterState, live: set<NodeId>, answers: Answers, r: DerivedRange): (fs: seq<FollowerStatus>)
    ensures |fs| == |r.followers|
    ensures forall i :: 0 <= i < |fs| ==> fs[i] == FollowerStatusOf(st, live, answers, r, r.followers[i])
  {
    seq(|r.followers|, i requires 0 <= i < |r.followers| => FollowerStatusOf(st, live, answers, r, r.followers[i]))
  }

  function CountAdmitted(fs: seq<FollowerStatus>): nat {
    if fs == [] then 0 else CountAdmitted(fs[..|fs| - 1]) + if fs[|fs| - 1].admitted then 1 else 0
  }

  function CountHealthy(fs: seq<FollowerStatus>): nat {
    if fs == [] then 0 else CountHealthy(fs[..|fs| - 1]) + if fs[|fs| - 1].healthy then 1 else 0
  }

  predicate TransitionFenced(st: ClusterState, r: DerivedRange) {
    && st.active.Some?
    && (var c := st.active.value;
        && (c.phase == PausingWrites || c.phase == VerifyingRanges || c.phase == ReadyToPublish)
        && (c.target.config.policy != st.committed.config.policy
            || exists p :: p in c.ranges && IntervalsOverlap(r.start, r.end, p.move.start, p.move.end)))
  }

  /** The followers a policy waits for, out of a placement's followers. */
  function Awaited(policy: AckPolicy, followers: seq<NodeId>): seq<NodeId> {
    match policy
    case OwnerOnly => []
    case FirstSuccessor => if followers == [] then [] else followers[..1]
    case AllReplicas => followers
  }

  predicate AnyHealthy(fs: seq<FollowerStatus>, node: NodeId) {
    exists f :: f in fs && f.node == node && f.healthy
  }

  /** The blocks that come from the placement and its followers. */
  predicate Blocked(config: Config, r: DerivedRange, fs: seq<FollowerStatus>) {
    || (config.policy == FirstSuccessor && r.followers == [])
    || (config.policy == AllReplicas && |r.followers| + 1 < config.rf)
    || CountAdmitted(fs) + 1 < config.guard.minAdmittedCopies
    || CountHealthy(fs) < config.guard.minHealthyFollowers
    || exists n :: n in Awaited(config.policy, r.followers) && !AnyHealthy(fs, n)
  }

  function RangeStatusOf(st: ClusterState, live: set<NodeId>, answers: Answers, r: DerivedRange): RangeStatus {
    var fs := FollowersOf(st, live, answers, r);
    RangeStatus(r.start, r.end, r.owner, fs, r.owner in live,
                !ActivationPending(st) && !TransitionFenced(st, r) && r.owner in live && !Blocked(st.committed.config, r, fs))
  }

  function StatusOf(st: ClusterState, live: set<NodeId>, answers: Answers): (s: Status)
    requires HasPlacement(st.committed)
    ensures s.epoch == st.committed.epoch && |s.ranges| == |DerivedRanges(st.committed)|
    ensures forall i :: 0 <= i < |s.ranges| ==> s.ranges[i] == RangeStatusOf(st, live, answers, DerivedRanges(st.committed)[i])
  {
    var ranges := DerivedRanges(st.committed);
    Status(st.committed.epoch, seq(|ranges|, i requires 0 <= i < |ranges| => RangeStatusOf(st, live, answers, ranges[i])))
  }

  // ----- The owner's decision -----

  datatype Unready = Unavailable | NotReady(node: NodeId)

  function FindRange(ranges: seq<RangeStatus>, owner: NodeId, t: Token): Option<RangeStatus> {
    if ranges == [] then None
    else if ranges[0].owner == owner && InInterval(ranges[0].start, ranges[0].end, t) then Some(ranges[0])
    else FindRange(ranges[1..], owner, t)
  }

  /** A follower is fit for the owner when it is admitted and its known lag is within the guard. */
  predicate Fit(f: FollowerStatus, guard: Guard) {
    f.admitted && f.lagKnown && f.lagMillis <= guard.maxLagMillis
  }

  function CountFit(fs: seq<FollowerStatus>, guard: Guard): nat {
    if fs == [] then 0 else CountFit(fs[..|fs| - 1], guard) + if Fit(fs[|fs| - 1], guard) then 1 else 0
  }

  predicate AnyFit(fs: seq<FollowerStatus>, guard: Guard, node: NodeId) {
    exists f :: f in fs && f.node == node && Fit(f, guard)
  }

  function FirstUnfit(nodes: seq<NodeId>, fs: seq<FollowerStatus>, guard: Guard): (r: Option<NodeId>)
    ensures r.None? <==> forall n :: n in nodes ==> AnyFit(fs, guard, n)
    ensures r.Some? ==> r.value in nodes && !AnyFit(fs, guard, r.value)
  {
    if nodes == [] then None
    else if !AnyFit(fs, guard, nodes[0]) then Some(nodes[0])
    else
      assert forall n :: n in nodes <==> n == nodes[0] || n in nodes[1..];
      FirstUnfit(nodes[1..], fs, guard)
  }

  /** The decision on a token's replicas and the status of its range. */
  function Decide(config: Config, replicas: seq<NodeId>, range: Option<RangeStatus>): Result<seq<NodeId>, Unready>
    requires |replicas| > 0
  {
    var guard := config.guard;
    if config.policy == FirstSuccessor && |replicas| < 2 then Err(Unavailable)
    else if config.policy == AllReplicas && |replicas| < config.rf then Err(Unavailable)
    else if guard.minAdmittedCopies <= 1 && guard.minHealthyFollowers == 0 && config.policy == OwnerOnly then Ok([])
    else if range.None? then Err(Unavailable)
    else
      var fs := range.value.followers;
      if CountAdmitted(fs) + 1 < guard.minAdmittedCopies || CountFit(fs, guard) < guard.minHealthyFollowers
      then Err(Unavailable)
      else
        var awaited := Awaited(config.policy, replicas[1..]);
        var unfit := FirstUnfit(awaited, fs, guard);
        if unfit.Some? then Err(NotReady(unfit.value)) else Ok(awaited)
  }

  /** `required_followers`: only a status of the owner's own epoch is used. */
  function RequiredFollowers(topology: Snapshot, t: Token, status: Option<Status>, owner: NodeId)
    : Result<seq<NodeId>, Unready>
    requires HasPlacement(topology)
  {
    ReplicasNotEmpty(topology, t);
    Decide(topology.config, Replicas(topology, t),
           if status.Some? && status.value.epoch == topology.epoch then FindRange(status.value.ranges, owner, t) else None)
  }

  // ----- Agreement -----

  /** The coordinator's extra demand, a lease, never makes a difference: a lag is only known between leased nodes. */
  lemma HealthyIsFit(st: ClusterState, live: set<NodeId>, answers: Answers, r: DerivedRange, i: nat)
    requires i < |r.followers|
    ensures FollowersOf(st, live, answers, r)[i].healthy
       <==> Fit(FollowersOf(st, live, answers, r)[i], st.committed.config.guard)
  {
  }

  lemma {:induction false} CountsAgree(fs: seq<FollowerStatus>, guard: Guard)
    requires forall f :: f in fs ==> (f.healthy <==> Fit(f, guard))
    ensures CountHealthy(fs) == CountFit(fs, guard)
    ensures forall n :: AnyHealthy(fs, n) <==> AnyFit(fs, guard, n)
  {
    if fs != [] {
      assert fs[|fs| - 1] in fs;
      CountsAgree(fs[..|fs| - 1], guard);
    }
  }

  /** A token's owner finds the range the token lies in. */
  lemma {:induction false} FindsOnly(ranges: seq<RangeStatus>, owner: NodeId, t: Token, i: nat)
    requires i < |ranges| && ranges[i].owner == owner
    requires forall j :: 0 <= j < |ranges| ==> (InInterval(ranges[j].start, ranges[j].end, t) <==> j == i)
    ensures FindRange(ranges, owner, t) == Some(ranges[i])
  {
    if i > 0 {
      assert ranges[1..][i - 1] == ranges[i];
      FindsOnly(ranges[1..], owner, t, i - 1);
    }
  }

  lemma {:induction false} OwnerFindsItsRange(st: ClusterState, live: set<NodeId>, answers: Answers, i: nat, t: Token)
    requires Sorted(st.committed.assignments) && HasPlacement(st.committed) && i < |DerivedRanges(st.committed)|
    requires var r := DerivedRanges(st.committed)[i]; InInterval(r.start, r.end, t)
    ensures var r := DerivedRanges(st.committed)[i];
            && FindRange(StatusOf(st, live, answers).ranges, r.owner, t) == Some(RangeStatusOf(st, live, answers, r))
            && Replicas(st.committed, t) == [r.owner] + r.followers
  {
    var ranges := DerivedRanges(st.committed);
    forall j | 0 <= j < |ranges| ensures InInterval(ranges[j].start, ranges[j].end, t) <==> j == i {
      RangesTileTheRing(st.committed, j, t);
      RangesTileTheRing(st.committed, i, t);
    }
    RangesTileTheRing(st.committed, i, t);
    RangeOfIsPlacement(st.committed, t);
    FindsOnly(StatusOf(st, live, answers).ranges, ranges[i].owner, t, i);
  }

  lemma DecisionMatchesBlock(config: Config, r: DerivedRange, range: RangeStatus)
    requires forall f :: f in range.followers ==> (f.healthy <==> Fit(f, config.guard))
    ensures var required := Decide(config, [r.owner] + r.followers, Some(range));
            && (required.Ok? <==> !Blocked(config, r, range.followers))
            && (required.Ok? ==> required.value == Awaited(config.policy, r.followers))
  {
    CountsAgree(range.followers, config.guard);
    assert ([r.owner] + r.followers)[1..] == r.followers;
  }

  ghost predicate Ready(st: ClusterState, live: set<NodeId>, answers: Answers, owner: NodeId, t: Token)
    requires HasPlacement(st.committed)
  {
    RequiredFollowers(st.committed, t, Some(StatusOf(st, live, answers)), owner).Ok?
  }

  lemma HealthyAreFit(st: ClusterState, live: set<NodeId>, answers: Answers, r: DerivedRange)
    ensures forall f :: f in FollowersOf(st, live, answers, r) ==> (f.healthy <==> Fit(f, st.committed.config.guard))
  {
    var fs := FollowersOf(st, live, answers, r);
    forall f | f in fs ensures f.healthy <==> Fit(f, st.committed.config.guard) {
      var j :| 0 <= j < |fs| && fs[j] == f;
      HealthyIsFit(st, live, answers, r, j);
    }
  }

  /** For a token of the range, the owner is ready exactly if the placement does not block the range; it then waits for
      exactly the policy's followers. */
  lemma ReadyMeansUnblocked(st: ClusterState, live: set<NodeId>, answers: Answers, i: nat, t: Token)
    requires Sorted(st.committed.assignments) && HasPlacement(st.committed) && i < |DerivedRanges(st.committed)|
    requires var r := DerivedRanges(st.committed)[i]; InInterval(r.start, r.end, t)
    ensures var r := DerivedRanges(st.committed)[i];
            var required := RequiredFollowers(st.committed, t, Some(StatusOf(st, live, answers)), r.owner);
            && (required.Ok? <==> !Blocked(st.committed.config, r, FollowersOf(st, live, answers, r)))
            && (required.Ok? ==> required.value == Awaited(st.committed.config.policy, r.followers))
  {
    var r := DerivedRanges(st.committed)[i];
    var range := RangeStatusOf(st, live, answers, r);
    OwnerFindsItsRange(st, live, answers, i, t);
    HealthyAreFit(st, live, answers, r);
    DecisionMatchesBlock(st.committed.config, r, range);
  }

  /** A range is reported writable if and only if its owner is leased, no activation is pending, no cutover fence may be
      up, and for every token of the range the owner, given that report, finds the followers a write needs. */
  lemma WritableMeansReady(st: ClusterState, live: set<NodeId>, answers: Answers, i: nat)
    requires Sorted(st.committed.assignments) && HasPlacement(st.committed) && i < |DerivedRanges(st.committed)|
    ensures var r := DerivedRanges(st.committed)[i];
            StatusOf(st, live, answers).ranges[i].writable
            <==> (&& r.owner in live && !ActivationPending(st) && !TransitionFenced(st, r)
                  && forall t: Token :: InInterval(r.start, r.end, t) ==> Ready(st, live, answers, r.owner, t))
  {
    var r := DerivedRanges(st.committed)[i];
    assert InInterval(r.start, r.end, r.end);
    forall t: Token | InInterval(r.start, r.end, t)
      ensures Ready(st, live, answers, r.owner, t) <==> !Blocked(st.committed.config, r, FollowersOf(st, live, answers, r))
    {
      ReadyMeansUnblocked(st, live, answers, i, t);
    }
  }

  /** The cutover fence covers exactly the ranges that share a token with a moving range, or all of them while the
      acknowledgement policy changes. */
  lemma FenceCoversMovingTokens(st: ClusterState, r: DerivedRange)
    ensures TransitionFenced(st, r)
       <==> && st.active.Some? && st.active.value.phase in {PausingWrites, VerifyingRanges, ReadyToPublish}
            && (st.active.value.target.config.policy != st.committed.config.policy
                || exists p, t: Token :: p in st.active.value.ranges && InInterval(r.start, r.end, t)
                                      && InInterval(p.move.start, p.move.end, t))
  {
    if st.active.Some? {
      forall p | p in st.active.value.ranges
        ensures IntervalsOverlap(r.start, r.end, p.move.start, p.move.end)
           <==> exists t: Token :: InInterval(r.start, r.end, t) && InInterval(p.move.start, p.move.end, t)
      {
        OverlapMeansShared(r.start, r.end, p.move.start, p.move.end);
      }
    }
  }

  // ----- The readiness barrier of a policy change -----

  /** The follower is admitted, within the guard, and has applied its whole stream. */
  predicate Ripe(f: FollowerStatus, guard: Guard) {
    Fit(f, guard) && f.cursor == f.head
  }

  function CountRipe(fs: seq<FollowerStatus>, guard: Guard): nat {
    if fs == [] then 0 else CountRipe(fs[..|fs| - 1], guard) + if Ripe(fs[|fs| - 1], guard) then 1 else 0
  }

  predicate AnyRipe(fs: seq<FollowerStatus>, guard: Guard, node: NodeId) {
    exists f :: f in fs && f.node == node && Ripe(f, guard)
  }

  predicate RangeVerified(config: Config, r: DerivedRange, fs: seq<FollowerStatus>) {
    && (forall f :: f in fs && f.admitted ==> f.lagKnown && f.cursor == f.head)
    && CountAdmitted(fs) + 1 >= config.guard.minAdmittedCopies
    && CountRipe(fs, config.guard) >= config.guard.minHealthyFollowers
    && (config.policy == AllReplicas ==> |r.followers| + 1 >= config.rf)
    && forall n :: n in Awaited(config.policy, r.followers) ==> AnyRipe(fs, config.guard, n)
  }

  function FindExact(ranges: seq<RangeStatus>, r: DerivedRange): (x: Option<RangeStatus>)
    ensures x.Some? ==> x.value in ranges && x.value.start == r.start && x.value.end == r.end && x.value.owner == r.owner
    ensures x.None? ==> forall y :: y in ranges ==> !(y.start == r.start && y.end == r.end && y.owner == r.owner)
  {
    if ranges == [] then None
    else if ranges[0].start == r.start && ranges[0].end == r.end && ranges[0].owner == r.owner then Some(ranges[0])
    else FindExact(ranges[1..], r)
  }

  predicate VerifiedFor(config: Config, r: DerivedRange, ranges: seq<RangeStatus>) {
    FindExact(ranges, r).Some? && RangeVerified(config, r, FindExact(ranges, r).value.followers)
  }

  /** `policy_readiness_verified`. */
  predicate PolicyReadinessVerified(target: Snapshot, status: Status)
    requires HasPlacement(target)
  {
    && status.epoch == (if target.epoch == 0 then 0 else target.epoch - 1)
    && forall r :: r in DerivedRanges(target) ==> VerifiedFor(target.config, r, status.ranges)
  }

  lemma {:induction false} RipeIsFit(fs: seq<FollowerStatus>, guard: Guard)
    ensures CountRipe(fs, guard) <= CountFit(fs, guard)
    ensures forall n :: AnyRipe(fs, guard, n) ==> AnyFit(fs, guard, n)
  {
    if fs != [] {
      RipeIsFit(fs[..|fs| - 1], guard);
    }
  }

  /** A verified target policy is one every owner can meet at once: given followers in that state, each token's owner
      finds exactly those the target policy waits for. Only a first-successor policy without followers, which no valid
      configuration reaches, passes the barrier and not the owner. */
  lemma VerifiedPolicyIsReady(target: Snapshot, status: Status, t: Token)
    requires Sorted(target.assignments) && HasPlacement(target) && PolicyReadinessVerified(target, status)
    ensures var r := RangeOf(target, t);
            && FindExact(status.ranges, r).Some? && |Replicas(target, t)| > 0
            && (Decide(target.config, Replicas(target, t), FindExact(status.ranges, r))
                  == Ok(Awaited(target.config.policy, r.followers))
                <==> !(target.config.policy == FirstSuccessor && r.followers == []))
  {
    var r := RangeOf(target, t);
    RangeOfIsPlacement(target, t);
    ReplicasNotEmpty(target, t);
    assert r in DerivedRanges(target);
    assert VerifiedFor(target.config, r, status.ranges);
    VerifiedDecides(target.config, r, FindExact(status.ranges, r).value);
    assert Replicas(target, t) == [r.owner] + r.followers;
  }

  lemma VerifiedDecides(config: Config, r: DerivedRange, range: RangeStatus)
    requires RangeVerified(config, r, range.followers)
    ensures Decide(config, [r.owner] + r.followers, Some(range)) == Ok(Awaited(config.policy, r.followers))
       <==> !(config.policy == FirstSuccessor && r.followers == [])
  {
    RipeIsFit(range.followers, config.guard);
    assert ([r.owner] + r.followers)[1..] == r.followers;
  }

  /** The report has one range with this end. */
  lemma OnlyRangeWithEnd(st: ClusterState, live: set<NodeId>, answers: Answers, i: nat, range: RangeStatus)
    requires Sorted(st.committed.assignments) && HasPlacement(st.committed) && i < |DerivedRanges(st.committed)|
    requires range in StatusOf(st, live, answers).ranges
    requires range.start == DerivedRanges(st.committed)[i].start && range.end == DerivedRanges(st.committed)[i].end
    ensures range == StatusOf(st, live, answers).ranges[i]
  {
    var ranges := StatusOf(st, live, answers).ranges;
    var j :| 0 <= j < |ranges| && ranges[j] == range;
    RangesTileTheRing(st.committed, i, range.end);
    RangesTileTheRing(st.committed, j, range.end);
  }

  /** And every admitted follower of a range the target keeps has applied its whole stream: the barrier checks all of
      them, not just those the policy waits for. */
  lemma VerifiedMeansCaughtUp(st: ClusterState, live: set<NodeId>, answers: Answers, target: Snapshot, i: nat, node: NodeId)
    requires Sorted(st.committed.assignments) && HasPlacement(st.committed) && HasPlacement(target)
    requires PolicyReadinessVerified(target, StatusOf(st, live, answers)) && i < |DerivedRanges(st.committed)|
    requires var r := DerivedRanges(st.committed)[i];
             && node in r.followers && Admitted(st, r, node)
             && exists x :: x in DerivedRanges(target) && x.start == r.start && x.end == r.end && x.owner == r.owner
    ensures var r := DerivedRanges(st.committed)[i];
            && answers(r.owner, node).Some? && answers(r.owner, node).value.cursor == answers(r.owner, node).value.head
  {
    var status := StatusOf(st, live, answers);
    var r := DerivedRanges(st.committed)[i];
    var x :| x in DerivedRanges(target) && x.start == r.start && x.end == r.end && x.owner == r.owner;
    assert VerifiedFor(target.config, x, status.ranges);
    var range := FindExact(status.ranges, x).value;
    OnlyRangeWithEnd(st, live, answers, i, range);
    var n :| 0 <= n < |r.followers| && r.followers[n] == node;
    assert FollowersOf(st, live, answers, r)[n] in range.followers;
  }
}
