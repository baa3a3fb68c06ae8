/**
 A topology snapshot: its canonical token assignments, owner lookup and the clockwise replica walk.

 `Preference` is the full clockwise order of distinct nodes from a token; a token's replicas are a prefix of it.
 */
module Topology {
  import opened Ring

  const MAX_MEMBERS: nat := 1024
  const MAX_VIRTUAL_NODES: nat := 4096
  const MAX_TOKEN_ASSIGNMENTS: nat := 1_048_576
  const MAX_ENDPOINT_BYTES: nat := 256
  const MIN_CLUSTER_TIMING_MILLIS: nat := 1_000
  const MAX_CLUSTER_TIMING_MILLIS: nat := 86_400_000
  const EMPTY_ID: NodeId := 0

  datatype Option<+T> = None | Some(value: T)

  datatype Result<+T, +E> = Ok(value: T) | Err(error: E)

  datatype AckPolicy = OwnerOnly | FirstSuccessor | AllReplicas

  datatype Guard = Guard(minAdmittedCopies: nat, minHealthyFollowers: nat, maxLagMillis: nat)

  datatype Config = Config(rf: nat, policy: AckPolicy, guard: Guard)

  datatype Timings = Timings(receiptRetentionMillis: nat, leaseDurationMillis: nat)

  datatype Member = Member(id: NodeId, endpoint: string)

  datatype Assignment = Assignment(token: Token, node: NodeId)

  /** A snapshot without its digest, which is a function of the other fields. */
  datatype Snapshot = Snapshot(epoch: nat, seed: nat, vnodes: nat, config: Config, timings: Timings,
                               members: seq<Member>, assignments: seq<Assignment>)

  datatype DerivedRange = DerivedRange(start: Token, end: Token, owner: NodeId, followers: seq<NodeId>)

  datatype TopologyError =
    | NoMembers | NoVirtualNodes | TooManyMembers | TooManyVirtualNodes | TooManyAssignments
    | EmptyNodeId | EmptyEndpoint | EndpointTooLong | DuplicateNodeId | DuplicateEndpoint
    | NoReplicas | TooManyReplicas | FirstSuccessorRequiresFollower | NoMinimumAdmittedCopies
    | NoMaximumReplicaLag | MinimumAdmittedCopiesExceedReplicationFactor
    | MinimumHealthyFollowersExceedReplicationFactor
    | ReceiptRetentionOutOfRange | LeaseDurationOutOfRange

  /** The seeded hash of a node's virtual node: (node id, vnode, seed). */
  type VnodeHash = (NodeId, nat, nat) -> Token

  // ----- Validation -----

  function ConfigError(c: Config): Option<TopologyError> {
    if c.rf == 0 then Some(NoReplicas)
    else if c.rf > MAX_MEMBERS then Some(TooManyReplicas)
    else if c.policy == FirstSuccessor && c.rf < 2 then Some(FirstSuccessorRequiresFollower)
    else if c.guard.minAdmittedCopies == 0 then Some(NoMinimumAdmittedCopies)
    else if c.guard.maxLagMillis == 0 then Some(NoMaximumReplicaLag)
    else if c.guard.minAdmittedCopies > c.rf then Some(MinimumAdmittedCopiesExceedReplicationFactor)
    else if c.guard.minHealthyFollowers > c.rf - 1 then Some(MinimumHealthyFollowersExceedReplicationFactor)
    else None
  }

  function TimingsError(t: Timings): Option<TopologyError> {
    if !(MIN_CLUSTER_TIMING_MILLIS <= t.receiptRetentionMillis <= MAX_CLUSTER_TIMING_MILLIS)
    then Some(ReceiptRetentionOutOfRange)
    else if !(MIN_CLUSTER_TIMING_MILLIS <= t.leaseDurationMillis <= MAX_CLUSTER_TIMING_MILLIS)
    then Some(LeaseDurationOutOfRange)
    else None
  }

  predicate IdTaken(members: seq<Member>, i: nat)
    requires i < |members|
  {
    exists j :: 0 <= j < i && members[j].id == members[i].id
  }

  predicate EndpointTaken(members: seq<Member>, i: nat)
    requires i < |members|
  {
    exists j :: 0 <= j < i && members[j].endpoint == members[i].endpoint
  }

  /** The first fault of the members from index i on, given the ones before it. */
  function MemberListError(members: seq<Member>, i: nat): Option<TopologyError>
    requires i <= |members|
    decreases |members| - i
  {
    if i == |members| then None
    else if members[i].id == EMPTY_ID then Some(EmptyNodeId)
    else if |members[i].endpoint| == 0 then Some(EmptyEndpoint)
    else if |members[i].endpoint| > MAX_ENDPOINT_BYTES then Some(EndpointTooLong)
    else if IdTaken(members, i) then Some(DuplicateNodeId)
    else if EndpointTaken(members, i) then Some(DuplicateEndpoint)
    else MemberListError(members, i + 1)
  }

  /** members * vnodes, as repeated addition. */
  function AssignmentCount(members: nat, vnodes: nat): nat {
    if members == 0 then 0 else AssignmentCount(members - 1, vnodes) + vnodes
  }

  function MembersError(members: seq<Member>, vnodes: nat): Option<TopologyError> {
    if |members| == 0 then Some(NoMembers)
    else if vnodes == 0 then Some(NoVirtualNodes)
    else if |members| > MAX_MEMBERS then Some(TooManyMembers)
    else if vnodes > MAX_VIRTUAL_NODES then Some(TooManyVirtualNodes)
    else if AssignmentCount(|members|, vnodes) > MAX_TOKEN_ASSIGNMENTS then Some(TooManyAssignments)
    else MemberListError(members, 0)
  }

  // ----- Canonical form -----

  predicate Before(a: Assignment, b: Assignment) {
    a.token < b.token || (a.token == b.token && a.node <= b.node)
  }

  ghost predicate Sorted(s: seq<Assignment>) {
    forall i, j {:trigger Before(s[i], s[j])} :: 0 <= i < j < |s| ==> Before(s[i], s[j])
  }

  function Insert(s: seq<Assignment>, a: Assignment): (r: seq<Assignment>) {
    if s == [] || Before(s[|s| - 1], a) then s + [a] else Insert(s[..|s| - 1], a) + [s[|s| - 1]]
  }

  lemma {:induction false} InsertIsPermutation(s: seq<Assignment>, a: Assignment)
    ensures multiset(Insert(s, a)) == multiset(s) + multiset{a}
  {
    if s != [] && !Before(s[|s| - 1], a) {
      InsertIsPermutation(s[..|s| - 1], a);
      assert s == s[..|s| - 1] + [s[|s| - 1]];
    }
  }

  /** In sorted assignments, everything but the last precedes it. */
  lemma BeforeLast(s: seq<Assignment>, a: Assignment)
    requires Sorted(s) && s != [] && a in s
    ensures Before(a, s[|s| - 1])
  {
    var i :| 0 <= i < |s| && s[i] == a;
    assert i < |s| - 1 ==> Before(s[i], s[|s| - 1]);
  }

  lemma SortedPrefix(s: seq<Assignment>)
    requires Sorted(s) && s != []
    ensures Sorted(s[..|s| - 1])
  {
    assert forall i, j :: 0 <= i < j < |s| ==> Before(s[i], s[j]);
  }

  lemma SortedSnoc(s: seq<Assignment>, a: Assignment)
    requires Sorted(s) && forall x :: x in s ==> Before(x, a)
    ensures Sorted(s + [a])
  {
    var r := s + [a];
    forall i, j | 0 <= i < j < |r| ensures Before(r[i], r[j]) {
      if j < |s| {
        assert Before(s[i], s[j]);
      } else {
        assert s[i] in s;
      }
    }
  }

  lemma {:induction false} InsertKeepsSorted(s: seq<Assignment>, a: Assignment)
    requires Sorted(s)
    ensures Sorted(Insert(s, a))
  {
    if s == [] || Before(s[|s| - 1], a) {
      forall x | x in s ensures Before(x, a) {
        BeforeLast(s, x);
      }
      SortedSnoc(s, a);
    } else {
      var init, last := s[..|s| - 1], s[|s| - 1];
      SortedPrefix(s);
      InsertKeepsSorted(init, a);
      InsertIsPermutation(init, a);
      forall x | x in Insert(init, a) ensures Before(x, last) {
        assert x in multiset(Insert(init, a));
        if x in init {
          BeforeLast(s, x);
        }
      }
      SortedSnoc(Insert(init, a), last);
    }
  }

  function SortAssignments(s: seq<Assignment>): (r: seq<Assignment>) {
    if s == [] then [] else Insert(SortAssignments(s[..|s| - 1]), s[|s| - 1])
  }

  lemma {:induction false} SortIsPermutation(s: seq<Assignment>)
    ensures multiset(SortAssignments(s)) == multiset(s)
  {
    if s != [] {
      SortIsPermutation(s[..|s| - 1]);
      InsertIsPermutation(SortAssignments(s[..|s| - 1]), s[|s| - 1]);
      assert s == s[..|s| - 1] + [s[|s| - 1]];
    }
  }

  lemma {:induction false} SortedAssignments(s: seq<Assignment>)
    ensures Sorted(SortAssignments(s))
    ensures |SortAssignments(s)| == |s|
  {
    if s != [] {
      SortedAssignments(s[..|s| - 1]);
      InsertKeepsSorted(SortAssignments(s[..|s| - 1]), s[|s| - 1]);
    }
    SortIsPermutation(s);
    assert |multiset(SortAssignments(s))| == |multiset(s)|;
  }

  function InsertMember(s: seq<Member>, m: Member): (r: seq<Member>) {
    if s == [] || s[|s| - 1].id <= m.id then s + [m] else InsertMember(s[..|s| - 1], m) + [s[|s| - 1]]
  }

  function SortMembers(s: seq<Member>): seq<Member> {
    if s == [] then [] else InsertMember(SortMembers(s[..|s| - 1]), s[|s| - 1])
  }

  function VnodesOf(h: VnodeHash, seed: nat, id: NodeId, n: nat): (r: seq<Assignment>)
    ensures |r| == n && forall i :: 0 <= i < n ==> r[i] == Assignment(h(id, i, seed), id)
  {
    if n == 0 then [] else VnodesOf(h, seed, id, n - 1) + [Assignment(h(id, n - 1, seed), id)]
  }

  function Unsorted(h: VnodeHash, seed: nat, members: seq<Member>, vnodes: nat): seq<Assignment> {
    if members == [] then []
    else Unsorted(h, seed, members[..|members| - 1], vnodes)
         + VnodesOf(h, seed, members[|members| - 1].id, vnodes)
  }

  function Build(h: VnodeHash, epoch: nat, seed: nat, vnodes: nat, members: seq<Member>, config: Config,
                 timings: Timings): (r: Result<Snapshot, TopologyError>)
    ensures r.Ok? ==> && r.value.epoch == epoch && r.value.seed == seed && r.value.vnodes == vnodes
                      && r.value.config == config && r.value.timings == timings && r.value.members == SortMembers(members)
  {
    if MembersError(members, vnodes).Some? then Err(MembersError(members, vnodes).value)
    else if ConfigError(config).Some? then Err(ConfigError(config).value)
    else if TimingsError(timings).Some? then Err(TimingsError(timings).value)
    else
      var sorted := SortMembers(members);
      Ok(Snapshot(epoch, seed, vnodes, config, timings, sorted,
                  SortAssignments(Unsorted(h, seed, sorted, vnodes))))
  }

  /** Construction, as the nested loops over members and virtual nodes. */
  method NewWithTimings(h: VnodeHash, epoch: nat, seed: nat, vnodes: nat, members: seq<Member>, config: Config,
                        timings: Timings) returns (r: Result<Snapshot, TopologyError>)
    ensures r == Build(h, epoch, seed, vnodes, members, config, timings)
  {
    var memberFault := MembersError(members, vnodes);
    if memberFault.Some? { return Err(memberFault.value); }
    var configFault := ConfigError(config);
    if configFault.Some? { return Err(configFault.value); }
    var timingFault := TimingsError(timings);
    if timingFault.Some? { return Err(timingFault.value); }
    var sorted := SortMembers(members);
    var assignments: seq<Assignment> := [];
    for i := 0 to |sorted|
      invariant assignments == Unsorted(h, seed, sorted[..i], vnodes)
    {
      ghost var done := assignments;
      for v := 0 to vnodes
        invariant assignments == done + VnodesOf(h, seed, sorted[i].id, v)
      {
        assignments := assignments + [Assignment(h(sorted[i].id, v, seed), sorted[i].id)];
      }
      assert sorted[..i + 1][..i] == sorted[..i];
    }
    assert sorted[..|sorted|] == sorted;
    return Ok(Snapshot(epoch, seed, vnodes, config, timings, sorted, SortAssignments(assignments)));
  }

  predicate MembersSorted(members: seq<Member>) {
    forall i, j :: 0 <= i < j < |members| ==> members[i].id < members[j].id
  }

  /** What `TopologySnapshot::validate` accepts. */
  predicate Valid(h: VnodeHash, s: Snapshot) {
    && MembersError(s.members, s.vnodes) == None
    && ConfigError(s.config) == None
    && TimingsError(s.timings) == None
    && MembersSorted(s.members)
    && s.assignments == SortAssignments(Unsorted(h, s.seed, s.members, s.vnodes))
  }

  // ----- Owner lookup and the replica walk -----

  function Tokens(s: seq<Assignment>): (r: seq<Token>)
    ensures |r| == |s| && forall i :: 0 <= i < |s| ==> r[i] == s[i].token
  {
    seq(|s|, i requires 0 <= i < |s| => s[i].token)
  }

  function Nodes(s: seq<Assignment>): (r: seq<NodeId>)
    ensures |r| == |s| && forall i :: 0 <= i < |s| ==> r[i] == s[i].node
  {
    seq(|s|, i requires 0 <= i < |s| => s[i].node)
  }

  /** The first assignment at or after the token, as the standard library's binary search. */
  method PartitionPoint(s: seq<Assignment>, t: Token) returns (k: nat)
    requires Sorted(s)
    ensures k == CountBelow(Tokens(s), t)
  {
    var lo, hi := 0, |s|;
    while lo < hi
      invariant 0 <= lo <= hi <= |s|
      invariant forall i :: 0 <= i < lo ==> s[i].token < t
      invariant forall i :: hi <= i < |s| ==> s[i].token >= t
    {
      var mid := (lo + hi) / 2;
      assert forall i :: 0 <= i < mid ==> Before(s[i], s[mid]);
      assert forall i :: mid < i < |s| ==> Before(s[mid], s[i]);
      if s[mid].token < t { lo := mid + 1; } else { hi := mid; }
    }
    CountBelowIs(Tokens(s), t, lo);
    return lo;
  }

  /** The nodes of the assignments in clockwise order from the token. */
  function Clockwise(s: seq<Assignment>, t: Token): (r: seq<NodeId>)
    ensures |r| == |s|
  {
    var k := CountBelow(Tokens(s), t);
    Nodes(s[k..]) + Nodes(s[..k])
  }

  function Owner(s: seq<Assignment>, t: Token): NodeId
    requires |s| > 0
  {
    var k := CountBelow(Tokens(s), t);
    s[if k == |s| then 0 else k].node
  }

  lemma OwnerIsFirstClockwise(s: seq<Assignment>, t: Token)
    requires |s| > 0
    ensures Clockwise(s, t)[0] == Owner(s, t)
  {
  }

  /** The first occurrence of every element, in order. */
  function Distinct(s: seq<NodeId>): seq<NodeId> {
    if s == [] then []
    else
      var init, last := s[..|s| - 1], s[|s| - 1];
      if last in Distinct(init) then Distinct(init) else Distinct(init) + [last]
  }

  ghost predicate NoRepeats(s: seq<NodeId>) {
    forall i, j :: 0 <= i < j < |s| ==> s[i] != s[j]
  }

  lemma {:induction false} DistinctHasNoRepeats(s: seq<NodeId>)
    ensures NoRepeats(Distinct(s))
    ensures s != [] ==> Distinct(s) != [] && Distinct(s)[0] == s[0]
  {
    if |s| > 1 {
      DistinctHasNoRepeats(s[..|s| - 1]);
    }
  }

  lemma {:induction false} DistinctElements(s: seq<NodeId>, x: NodeId)
    ensures x in Distinct(s) <==> x in s
  {
    if s != [] {
      DistinctElements(s[..|s| - 1], x);
      assert s == s[..|s| - 1] + [s[|s| - 1]];
    }
  }

  lemma DistinctStep(s: seq<NodeId>, i: nat)
    requires i < |s|
    ensures Distinct(s[..i + 1]) == var d := Distinct(s[..i]); if s[i] in d then d else d + [s[i]]
  {
    assert s[..i + 1][..i] == s[..i];
  }

  function Preference(s: seq<Assignment>, t: Token): seq<NodeId> {
    Distinct(Clockwise(s, t))
  }

  function Min(a: nat, b: nat): nat {
    if a <= b then a else b
  }

  function Max(a: nat, b: nat): nat {
    if a <= b then b else a
  }

  function Take(s: seq<NodeId>, n: nat): seq<NodeId> {
    s[..Min(n, |s|)]
  }

  function TargetCount(s: Snapshot): nat {
    Min(s.config.rf, |s.members|)
  }

  function Replicas(s: Snapshot, t: Token): seq<NodeId> {
    Take(Preference(s.assignments, t), TargetCount(s))
  }

  lemma {:induction false} DistinctOfPrefix(s: seq<NodeId>, n: nat)
    requires n <= |s|
    ensures Distinct(s[..n]) <= Distinct(s)
    decreases |s|
  {
    if n < |s| {
      DistinctOfPrefix(s[..|s| - 1], n);
      assert s[..|s| - 1][..n] == s[..n];
    } else {
      assert s[..n] == s;
    }
  }

  /** Stepping `offset` assignments from the owner, modulo their number, follows the clockwise order. */
  lemma {:induction false} StepIsClockwise(s: seq<Assignment>, t: Token, offset: nat)
    requires offset < |s|
    ensures var k := CountBelow(Tokens(s), t);
      s[(k % |s| + offset) % |s|].node == Clockwise(s, t)[offset]
  {
    var n, k := |s|, CountBelow(Tokens(s), t);
    WrapOnce(k, n);
    WrapOnce(k % n + offset, n);
  }

  lemma WrapOnce(i: nat, n: nat)
    requires i < n + n
    ensures i % n == if i < n then i else i - n
  {
  }

  /** The walk with its `seen` set and early exit. */
  method WalkFrom(s: seq<Assignment>, ownerIndex: nat, target: nat, ghost walk: seq<NodeId>)
    returns (replicas: seq<NodeId>)
    requires |s| == |walk| && target > 0
    requires forall offset: nat :: offset < |s| ==> s[(ownerIndex + offset) % |s|].node == walk[offset]
    ensures replicas == Take(Distinct(walk), target)
  {
    var seen: set<NodeId> := {};
    replicas := [];
    for offset := 0 to |s|
      invariant replicas == Distinct(walk[..offset])
      invariant forall x :: x in seen <==> x in replicas
      invariant |replicas| < target
    {
      var node := s[(ownerIndex + offset) % |s|].node;
      DistinctStep(walk, offset);
      if node !in seen {
        seen := seen + {node};
        replicas := replicas + [node];
        if |replicas| == target {
          DistinctOfPrefix(walk, offset + 1);
          return;
        }
      }
    }
    assert walk[..|s|] == walk;
  }

  /** A topology without assignments makes the source divide by zero, so one is required. */
  method ReplicaNodeIds(s: Snapshot, t: Token) returns (replicas: seq<NodeId>)
    requires Sorted(s.assignments) && |s.assignments| > 0 && TargetCount(s) > 0
    ensures replicas == Replicas(s, t)
  {
    var point := PartitionPoint(s.assignments, t);
    forall offset: nat | offset < |s.assignments| {
      StepIsClockwise(s.assignments, t, offset);
    }
    replicas := WalkFrom(s.assignments, point % |s.assignments|, Min(s.config.rf, |s.members|),
                         Clockwise(s.assignments, t));
  }

  lemma OwnerLeadsPreference(s: seq<Assignment>, t: Token)
    requires |s| > 0
    ensures Preference(s, t) != [] && Preference(s, t)[0] == Owner(s, t)
  {
    OwnerIsFirstClockwise(s, t);
    DistinctHasNoRepeats(Clockwise(s, t));
  }

  method OwnerForToken(s: Snapshot, t: Token) returns (r: Option<Member>)
    requires Sorted(s.assignments) && |s.assignments| > 0
    ensures r.Some? ==> r.value in s.members && r.value.id == Owner(s.assignments, t)
    ensures r.None? <==> forall m :: m in s.members ==> m.id != Owner(s.assignments, t)
  {
    var point := PartitionPoint(s.assignments, t);
    var node := s.assignments[point % |s.assignments|].node;
    StepIsClockwise(s.assignments, t, 0);
    WrapOnce(point, |s.assignments|);
    for i := 0 to |s.members|
      invariant forall j :: 0 <= j < i ==> s.members[j].id != node
    {
      if s.members[i].id == node { return Some(s.members[i]); }
    }
    return None;
  }
}
