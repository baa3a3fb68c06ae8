/**
 What a topology promises about placement: the replica list of every token, and how it changes when members leave or
 join.
 */
module Placement {
  import opened Ring
  import opened Topology

  // ----- Deleting nodes from assignments and from orders -----

  function Survivors(s: seq<Assignment>, gone: set<NodeId>): (r: seq<Assignment>) {
    if s == [] then []
    else
      var init, last := s[..|s| - 1], s[|s| - 1];
      if last.node in gone then Survivors(init, gone) else Survivors(init, gone) + [last]
  }

  function Without(s: seq<NodeId>, gone: set<NodeId>): (r: seq<NodeId>) {
    if s == [] then []
    else
      var init, last := s[..|s| - 1], s[|s| - 1];
      if last in gone then Without(init, gone) else Without(init, gone) + [last]
  }

  lemma {:induction false} SurvivorsElements(s: seq<Assignment>, gone: set<NodeId>, a: Assignment)
    ensures a in Survivors(s, gone) <==> a in s && a.node !in gone
  {
    if s != [] {
      SurvivorsElements(s[..|s| - 1], gone, a);
      assert s == s[..|s| - 1] + [s[|s| - 1]];
    }
  }

  lemma {:induction false} SurvivorsAppend(s: seq<Assignment>, r: seq<Assignment>, gone: set<NodeId>)
    ensures Survivors(s + r, gone) == Survivors(s, gone) + Survivors(r, gone)
  {
    if r == [] {
      assert s + r == s;
    } else {
      SurvivorsAppend(s, r[..|r| - 1], gone);
      assert (s + r)[..|s + r| - 1] == s + r[..|r| - 1];
    }
  }

  lemma {:induction false} WithoutAppend(s: seq<NodeId>, r: seq<NodeId>, gone: set<NodeId>)
    ensures Without(s + r, gone) == Without(s, gone) + Without(r, gone)
  {
    if r == [] {
      assert s + r == s;
    } else {
      WithoutAppend(s, r[..|r| - 1], gone);
      assert (s + r)[..|s + r| - 1] == s + r[..|r| - 1];
    }
  }

  lemma {:induction false} SurvivorsNodes(s: seq<Assignment>, gone: set<NodeId>)
    ensures Nodes(Survivors(s, gone)) == Without(Nodes(s), gone)
  {
    if s != [] {
      SurvivorsNodes(s[..|s| - 1], gone);
      assert Nodes(s)[..|s| - 1] == Nodes(s[..|s| - 1]);
    }
  }

  lemma {:induction false} WithoutElements(s: seq<NodeId>, gone: set<NodeId>, x: NodeId)
    ensures x in Without(s, gone) <==> x in s && x !in gone
  {
    if s != [] {
      WithoutElements(s[..|s| - 1], gone, x);
      assert s == s[..|s| - 1] + [s[|s| - 1]];
    }
  }

  /** Deleting nodes and keeping first occurrences commute. */
  lemma {:induction false} DistinctWithout(s: seq<NodeId>, gone: set<NodeId>)
    ensures Distinct(Without(s, gone)) == Without(Distinct(s), gone)
  {
    if s != [] {
      var init, last := s[..|s| - 1], s[|s| - 1];
      DistinctWithout(init, gone);
      WithoutElements(Distinct(init), gone, last);
      if last !in gone {
        assert Without(s, gone)[..|Without(s, gone)| - 1] == Without(init, gone);
      }
      if last !in Distinct(init) {
        assert Distinct(s)[..|Distinct(s)| - 1] == Distinct(init);
      }
    }
  }

  // ----- Removing members -----

  lemma {:induction false} SurvivorsSnoc(s: seq<Assignment>, a: Assignment, gone: set<NodeId>)
    ensures Survivors(s + [a], gone) == if a.node in gone then Survivors(s, gone) else Survivors(s, gone) + [a]
  {
    assert (s + [a])[..|s|] == s;
  }

  lemma {:induction false} InsertSnoc(s: seq<Assignment>, last: Assignment, a: Assignment)
    ensures Insert(s + [last], a) == if Before(last, a) then s + [last] + [a] else Insert(s, a) + [last]
  {
    assert (s + [last])[..|s|] == s;
  }

  /** Appending a largest assignment and inserting it are the same. */
  lemma {:induction false} SurvivorsInsertLargest(s: seq<Assignment>, a: Assignment, gone: set<NodeId>)
    requires forall x :: x in s ==> Before(x, a)
    ensures Insert(Survivors(s, gone), a) == Survivors(s, gone) + [a]
  {
    var kept := Survivors(s, gone);
    if kept != [] {
      SurvivorsElements(s, gone, kept[|kept| - 1]);
    }
  }

  /** Inserting into canonical order and deleting nodes commute. */
  lemma {:induction false} InsertSurvivors(s: seq<Assignment>, a: Assignment, gone: set<NodeId>)
    requires Sorted(s)
    ensures Survivors(Insert(s, a), gone)
         == if a.node in gone then Survivors(s, gone) else Insert(Survivors(s, gone), a)
  {
    if s == [] || Before(s[|s| - 1], a) {
      forall x | x in s ensures Before(x, a) {
        BeforeLast(s, x);
      }
      SurvivorsSnoc(s, a, gone);
      SurvivorsInsertLargest(s, a, gone);
    } else {
      var init, last := s[..|s| - 1], s[|s| - 1];
      SortedPrefix(s);
      InsertSurvivors(init, a, gone);
      SurvivorsSnoc(Insert(init, a), last, gone);
      InsertSnoc(Survivors(init, gone), last, a);
    }
  }

  lemma {:induction false} SortSurvivors(s: seq<Assignment>, gone: set<NodeId>)
    ensures SortAssignments(Survivors(s, gone)) == Survivors(SortAssignments(s), gone)
  {
    if s != [] {
      var init, last := s[..|s| - 1], s[|s| - 1];
      SortSurvivors(init, gone);
      SortedAssignments(init);
      InsertSurvivors(SortAssignments(init), last, gone);
      if last.node !in gone {
        assert Survivors(s, gone)[..|Survivors(s, gone)| - 1] == Survivors(init, gone);
      }
    }
  }

  function Remaining(members: seq<Member>, gone: set<NodeId>): (r: seq<Member>) {
    if members == [] then []
    else
      var init, last := members[..|members| - 1], members[|members| - 1];
      if last.id in gone then Remaining(init, gone) else Remaining(init, gone) + [last]
  }

  /** One node's assignments go or stay together. */
  lemma {:induction false} OneNodeSurvives(s: seq<Assignment>, id: NodeId, gone: set<NodeId>)
    requires forall i :: 0 <= i < |s| ==> s[i].node == id
    ensures Survivors(s, gone) == if id in gone then [] else s
  {
    if s != [] {
      OneNodeSurvives(s[..|s| - 1], id, gone);
    }
  }

  lemma {:induction false} UnsortedSurvivors(h: VnodeHash, seed: nat, members: seq<Member>, vnodes: nat,
                                             gone: set<NodeId>)
    ensures Unsorted(h, seed, Remaining(members, gone), vnodes)
         == Survivors(Unsorted(h, seed, members, vnodes), gone)
  {
    if members != [] {
      var init, last := members[..|members| - 1], members[|members| - 1];
      UnsortedSurvivors(h, seed, init, vnodes, gone);
      SurvivorsAppend(Unsorted(h, seed, init, vnodes), VnodesOf(h, seed, last.id, vnodes), gone);
      OneNodeSurvives(VnodesOf(h, seed, last.id, vnodes), last.id, gone);
      if last.id !in gone {
        assert Remaining(members, gone)[..|Remaining(members, gone)| - 1] == Remaining(init, gone);
      }
    }
  }

  function Ids(members: seq<Member>): (r: set<NodeId>) {
    set m | m in members :: m.id
  }

  /** Two topologies over the same hash ring: same seed and virtual nodes, canonical both. */
  ghost predicate SameRing(h: VnodeHash, a: Snapshot, b: Snapshot) {
    Valid(h, a) && Valid(h, b) && a.seed == b.seed && a.vnodes == b.vnodes
  }

  /** Only ids matter to the assignments. */
  lemma {:induction false} UnsortedDependsOnIds(h: VnodeHash, seed: nat, a: seq<Member>, b: seq<Member>, vnodes: nat)
    requires |a| == |b| && forall i :: 0 <= i < |a| ==> a[i].id == b[i].id
    ensures Unsorted(h, seed, a, vnodes) == Unsorted(h, seed, b, vnodes)
  {
    if a != [] {
      UnsortedDependsOnIds(h, seed, a[..|a| - 1], b[..|b| - 1], vnodes);
    }
  }

  lemma {:induction false} RemainingIsSorted(members: seq<Member>, gone: set<NodeId>)
    requires MembersSorted(members)
    ensures MembersSorted(Remaining(members, gone))
    ensures forall x :: x in Remaining(members, gone) <==> x in members && x.id !in gone
  {
    if members != [] {
      var init, last := members[..|members| - 1], members[|members| - 1];
      RemainingIsSorted(init, gone);
      assert members == init + [last];
      assert forall i :: 0 <= i < |Remaining(init, gone)| ==> Remaining(init, gone)[i] in init;
    }
  }

  function Elements(s: seq<NodeId>): set<NodeId> {
    set x | x in s
  }

  lemma {:induction false} NoRepeatsSize(s: seq<NodeId>)
    requires NoRepeats(s)
    ensures |Elements(s)| == |s|
  {
    if s != [] {
      var init, last := s[..|s| - 1], s[|s| - 1];
      NoRepeatsSize(init);
      assert s == init + [last];
      assert Elements(s) == Elements(init) + {last};
    }
  }

  function IdList(members: seq<Member>): (r: seq<NodeId>)
    ensures |r| == |members| && forall i :: 0 <= i < |r| ==> r[i] == members[i].id
  {
    seq(|members|, i requires 0 <= i < |members| => members[i].id)
  }

  ghost predicate Ascending(s: seq<nat>) {
    forall i, j :: 0 <= i < j < |s| ==> s[i] < s[j]
  }

  /** A strictly increasing list is determined by its elements. */
  lemma AscendingAgree(a: seq<nat>, b: seq<nat>)
    requires Ascending(a) && Ascending(b) && forall x :: x in a <==> x in b
    ensures a == b
  {
    NoRepeatsSize(a);
    NoRepeatsSize(b);
    assert Elements(a) == Elements(b);
    forall i | 0 <= i < |a| ensures a[i] == b[i] {
      AscendingAgreeAt(a, b, i);
    }
  }

  lemma {:induction false} AscendingAgreeAt(a: seq<nat>, b: seq<nat>, i: nat)
    requires Ascending(a) && Ascending(b) && i < |a| && i < |b| && forall x :: x in a <==> x in b
    ensures a[i] == b[i]
  {
    forall j | 0 <= j < i ensures a[j] == b[j] {
      AscendingAgreeAt(a, b, j);
    }
    assert a[i] in b && b[i] in a;
    var k :| 0 <= k < |b| && b[k] == a[i];
    var l :| 0 <= l < |a| && a[l] == b[i];
    assert i <= k && i <= l;
  }

  lemma IdListElements(members: seq<Member>, x: NodeId)
    ensures x in IdList(members) <==> x in Ids(members)
  {
    if x in Ids(members) {
      var m :| m in members && m.id == x;
      var i :| 0 <= i < |members| && members[i] == m;
      assert IdList(members)[i] == x;
    }
  }

  lemma {:induction false} RemainingIds(members: seq<Member>, target: seq<Member>)
    requires MembersSorted(members) && MembersSorted(target) && Ids(target) <= Ids(members)
    ensures IdList(Remaining(members, Ids(members) - Ids(target))) == IdList(target)
  {
    var gone := Ids(members) - Ids(target);
    var rest := Remaining(members, gone);
    RemainingIsSorted(members, gone);
    assert Ids(rest) == Ids(target) by {
      forall x | x in Ids(target) ensures x in Ids(rest) {
        var m :| m in members && m.id == x;
        assert m in rest;
      }
    }
    forall x ensures x in IdList(rest) <==> x in IdList(target) {
      IdListElements(rest, x);
      IdListElements(target, x);
    }
    AscendingAgree(IdList(rest), IdList(target));
  }

  /** The canonical assignments of the remaining members are the old ones with the others deleted. */
  lemma RemovalFiltersAssignments(h: VnodeHash, base: Snapshot, target: Snapshot)
    requires SameRing(h, base, target) && Ids(target.members) <= Ids(base.members)
    ensures target.assignments == Survivors(base.assignments, Ids(base.members) - Ids(target.members))
  {
    var gone := Ids(base.members) - Ids(target.members);
    var rest := Remaining(base.members, gone);
    RemainingIds(base.members, target.members);
    assert forall i :: 0 <= i < |rest| ==> IdList(rest)[i] == rest[i].id;
    UnsortedDependsOnIds(h, base.seed, rest, target.members, base.vnodes);
    UnsortedSurvivors(h, base.seed, base.members, base.vnodes, gone);
    SortSurvivors(Unsorted(h, base.seed, base.members, base.vnodes), gone);
  }

  lemma {:induction false} NoneBelowFrom(s: seq<Assignment>, t: Token, x: Assignment)
    requires Sorted(s) && x in s[CountBelow(Tokens(s), t)..]
    ensures x.token >= t
  {
    var k := CountBelow(Tokens(s), t);
    var i :| k <= i < |s| && s[i] == x;
    assert i > k ==> Before(s[k], s[i]);
  }

  lemma {:induction false} SurvivorsBelow(s: seq<Assignment>, gone: set<NodeId>, t: Token, k: nat)
    requires Sorted(s) && k == CountBelow(Tokens(s), t)
    ensures CountBelow(Tokens(Survivors(s[..k], gone) + Survivors(s[k..], gone)), t) == |Survivors(s[..k], gone)|
  {
    var low, high := Survivors(s[..k], gone), Survivors(s[k..], gone);
    forall i | 0 <= i < |low| ensures low[i].token < t {
      SurvivorsElements(s[..k], gone, low[i]);
    }
    if high != [] {
      SurvivorsElements(s[k..], gone, high[0]);
      NoneBelowFrom(s, t, high[0]);
    }
    CountBelowIs(Tokens(low + high), t, |low|);
  }

  /** Splitting the assignments where the token falls gives the clockwise order. */
  lemma {:induction false} ClockwiseOfParts(low: seq<Assignment>, high: seq<Assignment>, t: Token)
    requires CountBelow(Tokens(low + high), t) == |low|
    ensures Clockwise(low + high, t) == Nodes(high) + Nodes(low)
  {
    assert (low + high)[|low|..] == high && (low + high)[..|low|] == low;
  }

  lemma {:induction false} ClockwiseOfSurvivingParts(low: seq<Assignment>, high: seq<Assignment>, gone: set<NodeId>, t: Token)
    requires CountBelow(Tokens(low + high), t) == |low|
    requires CountBelow(Tokens(Survivors(low, gone) + Survivors(high, gone)), t) == |Survivors(low, gone)|
    ensures Clockwise(Survivors(low + high, gone), t) == Without(Clockwise(low + high, t), gone)
  {
    SurvivorsAppend(low, high, gone);
    ClockwiseOfParts(low, high, t);
    ClockwiseOfParts(Survivors(low, gone), Survivors(high, gone), t);
    SurvivorsNodes(low, gone);
    SurvivorsNodes(high, gone);
    WithoutAppend(Nodes(high), Nodes(low), gone);
  }

  /** Deleting nodes deletes them from the clockwise order of every token. */
  lemma {:induction false} ClockwiseSurvivors(s: seq<Assignment>, gone: set<NodeId>, t: Token)
    requires Sorted(s)
    ensures Clockwise(Survivors(s, gone), t) == Without(Clockwise(s, t), gone)
  {
    var k := CountBelow(Tokens(s), t);
    SurvivorsBelow(s, gone, t, k);
    assert s == s[..k] + s[k..];
    ClockwiseOfSurvivingParts(s[..k], s[k..], gone, t);
  }

  /** Removing any members makes each token's full preference order the old one without them. */
  lemma RemovalFiltersPreference(h: VnodeHash, base: Snapshot, target: Snapshot, t: Token)
    requires SameRing(h, base, target) && Ids(target.members) <= Ids(base.members)
    ensures Preference(target.assignments, t)
         == Without(Preference(base.assignments, t), Ids(base.members) - Ids(target.members))
  {
    var gone := Ids(base.members) - Ids(target.members);
    RemovalFiltersAssignments(h, base, target);
    SortedAssignments(Unsorted(h, base.seed, base.members, base.vnodes));
    ClockwiseSurvivors(base.assignments, gone, t);
    DistinctWithout(Clockwise(base.assignments, t), gone);
  }

  // ----- Members and preference -----

  lemma {:induction false} VnodeNodes(h: VnodeHash, seed: nat, members: seq<Member>, vnodes: nat, x: NodeId)
    requires vnodes > 0
    ensures (exists a :: a in Unsorted(h, seed, members, vnodes) && a.node == x) <==> x in Ids(members)
  {
    if members != [] {
      var init, last := members[..|members| - 1], members[|members| - 1];
      VnodeNodes(h, seed, init, vnodes, x);
      assert members == init + [last];
      var added := VnodesOf(h, seed, last.id, vnodes);
      assert added[0] in Unsorted(h, seed, members, vnodes) && added[0].node == last.id;
    }
  }

  lemma PreferenceElements(h: VnodeHash, s: Snapshot, t: Token, x: NodeId)
    requires Valid(h, s)
    ensures x in Preference(s.assignments, t) <==> x in Ids(s.members)
  {
    var raw := Unsorted(h, s.seed, s.members, s.vnodes);
    VnodeNodes(h, s.seed, s.members, s.vnodes, x);
    DistinctElements(Clockwise(s.assignments, t), x);
    ClockwiseElements(s.assignments, t, x);
    SortIsPermutation(raw);
    assert forall a :: a in s.assignments <==> a in multiset(s.assignments);
    assert forall a :: a in raw <==> a in multiset(raw);
  }

  lemma NodesElements(s: seq<Assignment>, x: NodeId)
    ensures x in Nodes(s) <==> exists a :: a in s && a.node == x
  {
    if x in Nodes(s) {
      var i :| 0 <= i < |s| && Nodes(s)[i] == x;
      assert s[i] in s;
    }
    if a :| a in s && a.node == x {
      var j :| 0 <= j < |s| && s[j] == a;
      assert Nodes(s)[j] == x;
    }
  }

  lemma ClockwiseElements(s: seq<Assignment>, t: Token, x: NodeId)
    ensures x in Clockwise(s, t) <==> exists a :: a in s && a.node == x
  {
    var k := CountBelow(Tokens(s), t);
    assert Nodes(s) == Nodes(s[..k]) + Nodes(s[k..]);
    NodesElements(s, x);
  }

  lemma MemberCount(members: seq<Member>)
    requires MembersSorted(members)
    ensures |Ids(members)| == |members|
  {
    forall x ensures x in IdList(members) <==> x in Ids(members) {
      IdListElements(members, x);
    }
    assert Elements(IdList(members)) == Ids(members);
    NoRepeatsSize(IdList(members));
  }

  /** The preference order of every token lists every member exactly once. */
  lemma PreferenceListsMembers(h: VnodeHash, s: Snapshot, t: Token)
    requires Valid(h, s)
    ensures NoRepeats(Preference(s.assignments, t))
    ensures Elements(Preference(s.assignments, t)) == Ids(s.members)
    ensures |Preference(s.assignments, t)| == |s.members|
  {
    var p := Preference(s.assignments, t);
    DistinctHasNoRepeats(Clockwise(s.assignments, t));
    assert Elements(p) == Ids(s.members) by {
      forall x ensures x in p <==> x in Ids(s.members) {
        PreferenceElements(h, s, t, x);
      }
    }
    NoRepeatsSize(p);
    MemberCount(s.members);
  }

  lemma ValidIsSorted(h: VnodeHash, s: Snapshot)
    requires Valid(h, s)
    ensures Sorted(s.assignments) && |s.assignments| > 0 && TargetCount(s) > 0
  {
    SortedAssignments(Unsorted(h, s.seed, s.members, s.vnodes));
    PreferenceListsMembers(h, s, 0);
  }

  /** Every token has exactly min(replication factor, members) distinct replicas, its owner first. */
  lemma ReplicaCount(h: VnodeHash, s: Snapshot, t: Token)
    requires Valid(h, s)
    ensures |Replicas(s, t)| == TargetCount(s) > 0
    ensures NoRepeats(Replicas(s, t)) && Elements(Replicas(s, t)) <= Ids(s.members)
    ensures |s.assignments| > 0 && Replicas(s, t)[0] == Owner(s.assignments, t)
  {
    ValidIsSorted(h, s);
    PreferenceListsMembers(h, s, t);
    OwnerLeadsPreference(s.assignments, t);
    var p := Preference(s.assignments, t);
    assert forall x :: x in Replicas(s, t) ==> x in Elements(p);
  }

  /** Removing members leaves each token the old full preference order with them deleted, cut to
      min(replication factor, members). */
  lemma RemovalFiltersReplicas(h: VnodeHash, base: Snapshot, target: Snapshot, t: Token)
    requires SameRing(h, base, target) && Ids(target.members) <= Ids(base.members)
    ensures Replicas(target, t)
         == Take(Without(Preference(base.assignments, t), Ids(base.members) - Ids(target.members)),
                 Min(target.config.rf, |target.members|))
    ensures |Replicas(target, t)| == Min(target.config.rf, |target.members|)
  {
    RemovalFiltersPreference(h, base, target, t);
    ReplicaCount(h, target, t);
  }

  lemma {:induction false} WithoutHead(s: seq<NodeId>, gone: set<NodeId>, n: nat)
    requires n < |s| && s[n] !in gone && forall i :: 0 <= i < n ==> s[i] in gone
    ensures Without(s, gone) != [] && Without(s, gone)[0] == s[n]
  {
    if n + 1 < |s| {
      WithoutHead(s[..|s| - 1], gone, n);
    } else {
      WithoutEmpty(s[..n], gone);
      assert s[..|s| - 1] == s[..n];
    }
  }

  lemma {:induction false} WithoutEmpty(s: seq<NodeId>, gone: set<NodeId>)
    requires forall x :: x in s ==> x in gone
    ensures Without(s, gone) == []
  {
    if s != [] {
      WithoutEmpty(s[..|s| - 1], gone);
    }
  }

  /** After a removal, the first surviving node of the old preference order owns the token. */
  lemma FirstSurvivorOwns(h: VnodeHash, base: Snapshot, target: Snapshot, t: Token, n: nat)
    requires SameRing(h, base, target) && Ids(target.members) <= Ids(base.members)
    requires var p := Preference(base.assignments, t);
      n < |p| && p[n] in Ids(target.members) && forall i :: 0 <= i < n ==> p[i] !in Ids(target.members)
    ensures |target.assignments| > 0
    ensures Owner(target.assignments, t) == Preference(base.assignments, t)[n]
  {
    var gone := Ids(base.members) - Ids(target.members);
    var p := Preference(base.assignments, t);
    RemovalFiltersPreference(h, base, target, t);
    PreferenceListsMembers(h, base, t);
    forall i | 0 <= i < n ensures p[i] in gone {
      assert p[i] in Elements(p);
    }
    WithoutHead(p, gone, n);
    ValidIsSorted(h, target);
    OwnerLeadsPreference(target.assignments, t);
  }

  /** Adding members moves a token only onto an added member. */
  lemma AdditionMovesOntoAdded(h: VnodeHash, base: Snapshot, target: Snapshot, t: Token)
    requires SameRing(h, base, target) && Ids(base.members) <= Ids(target.members)
    ensures |base.assignments| > 0 && |target.assignments| > 0
    ensures Owner(target.assignments, t) != Owner(base.assignments, t)
        ==> Owner(target.assignments, t) in Ids(target.members) - Ids(base.members)
  {
    ValidIsSorted(h, base);
    ValidIsSorted(h, target);
    OwnerLeadsPreference(target.assignments, t);
    PreferenceListsMembers(h, target, t);
    var p := Preference(target.assignments, t);
    assert p[0] in Elements(p);
    if p[0] in Ids(base.members) {
      FirstSurvivorOwns(h, target, base, t, 0);
    }
  }
}
