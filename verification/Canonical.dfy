/**
 The canonical form of a topology. Construction sorts what it is given; validation demands the sorted form. The two fit:
 a snapshot is valid exactly if construction from its own fields gives it back.
 */
module Canonical {
  import opened Topology

  predicate WellFormed(m: Member) {
    m.id != EMPTY_ID && 0 < |m.endpoint| <= MAX_ENDPOINT_BYTES
  }

  predicate Differ(a: Member, b: Member) {
    a.id != b.id && a.endpoint != b.endpoint
  }

  /** What the member check accepts, said without its order of checking. */
  ghost predicate Clean(s: seq<Member>) {
    (forall i :: 0 <= i < |s| ==> WellFormed(s[i])) && (forall i, j :: 0 <= i < j < |s| ==> Differ(s[i], s[j]))
  }

  lemma {:induction false} NoErrorFrom(s: seq<Member>, i: nat)
    requires i <= |s|
    ensures MemberListError(s, i) == None
       <==> (&& (forall k :: i <= k < |s| ==> WellFormed(s[k]))
             && (forall j, k :: 0 <= j < k < |s| && i <= k ==> Differ(s[j], s[k])))
    decreases |s| - i
  {
    if i < |s| {
      NoErrorFrom(s, i + 1);
    }
  }

  lemma CleanSnoc(s: seq<Member>, m: Member)
    ensures Clean(s + [m]) <==> Clean(s) && WellFormed(m) && forall x :: x in s ==> Differ(x, m)
  {
    var r := s + [m];
    if Clean(r) {
      assert WellFormed(r[|s|]) && forall i :: 0 <= i < |s| ==> r[i] == s[i] && WellFormed(r[i]);
      forall i, j | 0 <= i < j < |s| ensures Differ(s[i], s[j]) {
        assert Differ(r[i], r[j]);
      }
      forall x | x in s ensures Differ(x, m) {
        var i :| 0 <= i < |s| && s[i] == x;
        assert Differ(r[i], r[|s|]);
      }
    }
  }

  lemma {:induction false} InsertElements(s: seq<Member>, m: Member, x: Member)
    ensures x in InsertMember(s, m) <==> x in s || x == m
    ensures |InsertMember(s, m)| == |s| + 1
  {
    if s != [] && s[|s| - 1].id > m.id {
      InsertElements(s[..|s| - 1], m, x);
      assert s == s[..|s| - 1] + [s[|s| - 1]];
    }
  }

  lemma OrderSnoc(s: seq<Member>, m: Member)
    requires MembersSorted(s) && forall x :: x in s ==> x.id < m.id
    ensures MembersSorted(s + [m])
  {
    assert forall i :: 0 <= i < |s| ==> s[i] in s;
  }

  lemma {:induction false} InsertKeepsClean(s: seq<Member>, m: Member)
    requires Clean(s) && WellFormed(m) && forall x :: x in s ==> Differ(x, m)
    ensures Clean(InsertMember(s, m))
  {
    CleanSnoc(s, m);
    if s != [] && s[|s| - 1].id > m.id {
      var init, last := s[..|s| - 1], s[|s| - 1];
      assert s == init + [last] && last in s;
      CleanSnoc(init, last);
      InsertKeepsClean(init, m);
      forall x | x in InsertMember(init, m) ensures Differ(x, last) {
        InsertElements(init, m, x);
      }
      CleanSnoc(InsertMember(init, m), last);
    }
  }

  lemma {:induction false} InsertKeepsOrder(s: seq<Member>, m: Member)
    requires MembersSorted(s) && forall x :: x in s ==> x.id != m.id
    ensures MembersSorted(InsertMember(s, m))
  {
    if s == [] || s[|s| - 1].id <= m.id {
      assert s != [] ==> s[|s| - 1] in s;
      OrderSnoc(s, m);
    } else {
      var init, last := s[..|s| - 1], s[|s| - 1];
      assert s == init + [last];
      InsertKeepsOrder(init, m);
      forall x | x in InsertMember(init, m) ensures x.id < last.id {
        InsertElements(init, m, x);
      }
      OrderSnoc(InsertMember(init, m), last);
    }
  }

  lemma {:induction false} SortKeepsClean(s: seq<Member>)
    requires Clean(s)
    ensures Clean(SortMembers(s)) && MembersSorted(SortMembers(s)) && |SortMembers(s)| == |s|
    ensures forall x :: x in SortMembers(s) <==> x in s
  {
    if s != [] {
      var init, last := s[..|s| - 1], s[|s| - 1];
      assert s == init + [last];
      CleanSnoc(init, last);
      SortKeepsClean(init);
      InsertKeepsClean(SortMembers(init), last);
      InsertKeepsOrder(SortMembers(init), last);
      forall x ensures x in SortMembers(s) <==> x in s {
        InsertElements(SortMembers(init), last, x);
      }
      InsertElements(SortMembers(init), last, last);
    }
  }

  lemma {:induction false} SortKeepsMembersValid(members: seq<Member>, vnodes: nat)
    requires MembersError(members, vnodes) == None
    ensures MembersError(SortMembers(members), vnodes) == None && MembersSorted(SortMembers(members))
  {
    NoErrorFrom(members, 0);
    assert Clean(members);
    SortKeepsClean(members);
    NoErrorFrom(SortMembers(members), 0);
  }

  /** What construction returns is valid. */
  lemma BuildIsValid(h: VnodeHash, epoch: nat, seed: nat, vnodes: nat, members: seq<Member>, config: Config, timings: Timings,
                     s: Snapshot)
    requires Build(h, epoch, seed, vnodes, members, config, timings) == Ok(s)
    ensures Valid(h, s) && s.epoch == epoch && s.seed == seed && s.vnodes == vnodes
  {
    SortKeepsMembersValid(members, vnodes);
  }

  lemma {:induction false} SortedIsFixed(s: seq<Member>)
    requires MembersSorted(s)
    ensures SortMembers(s) == s
  {
    if s != [] {
      SortedIsFixed(s[..|s| - 1]);
    }
  }

  /** A snapshot is valid if and only if constructing it from its own fields gives it back. */
  lemma ValidIsCanonical(h: VnodeHash, s: Snapshot)
    ensures Valid(h, s) <==> Build(h, s.epoch, s.seed, s.vnodes, s.members, s.config, s.timings) == Ok(s)
  {
    if Valid(h, s) {
      SortedIsFixed(s.members);
    } else if Build(h, s.epoch, s.seed, s.vnodes, s.members, s.config, s.timings) == Ok(s) {
      BuildIsValid(h, s.epoch, s.seed, s.vnodes, s.members, s.config, s.timings, s);
    }
  }

  /** The topology a change of members or configuration leads to, one epoch on. */
  function TargetOf(h: VnodeHash, committed: Snapshot, members: seq<Member>, config: Config)
    : Result<Snapshot, TopologyError>
  {
    Build(h, committed.epoch + 1, committed.seed, committed.vnodes, members, config, committed.timings)
  }

  lemma TargetIsValid(h: VnodeHash, committed: Snapshot, members: seq<Member>, config: Config, target: Snapshot)
    requires TargetOf(h, committed, members, config) == Ok(target)
    ensures Valid(h, target)
    ensures target.epoch == committed.epoch + 1 && target.seed == committed.seed && target.vnodes == committed.vnodes
  {
    BuildIsValid(h, committed.epoch + 1, committed.seed, committed.vnodes, members, config, committed.timings, target);
  }
}
