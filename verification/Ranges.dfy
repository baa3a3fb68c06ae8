/**
 The ranges a topology derives: one per distinct assignment token, each with the owner and followers
 that every one of its tokens has.
 */
module Ranges {
  import opened Ring
  import opened Topology

  /** Consecutive duplicates removed, as `Vec::dedup` does. */
  function DropRepeats(s: seq<Token>): (r: seq<Token>)
    ensures s != [] ==> r != [] && r[|r| - 1] == s[|s| - 1]
  {
    if |s| <= 1 then s
    else
      var init := DropRepeats(s[..|s| - 1]);
      if s[|s| - 1] == s[|s| - 2] then init else init + [s[|s| - 1]]
  }

  lemma {:induction false} DropRepeatsElements(s: seq<Token>, x: Token)
    ensures x in DropRepeats(s) <==> x in s
  {
    if |s| > 1 {
      var init, last := s[..|s| - 1], s[|s| - 1];
      DropRepeatsElements(init, x);
      assert s == init + [last];
      assert last == s[|s| - 2] ==> init[|init| - 1] == last;
    }
  }

  lemma {:induction false} DropRepeatsIsIncreasing(s: seq<Token>)
    requires forall i, j :: 0 <= i < j < |s| ==> s[i] <= s[j]
    ensures Increasing(DropRepeats(s))
  {
    if |s| > 1 {
      var init := s[..|s| - 1];
      DropRepeatsIsIncreasing(init);
      var d := DropRepeats(init);
      assert d[|d| - 1] == init[|init| - 1] <= s[|s| - 1];
    }
  }

  predicate HasPlacement(s: Snapshot) {
    |s.assignments| > 0 && TargetCount(s) > 0
  }

  lemma ReplicasNotEmpty(s: Snapshot, t: Token)
    requires HasPlacement(s)
    ensures |Replicas(s, t)| > 0 && Replicas(s, t)[0] == Owner(s.assignments, t)
  {
    OwnerLeadsPreference(s.assignments, t);
  }

  function Boundaries(s: Snapshot): (b: seq<Token>)
    ensures |s.assignments| > 0 ==> |b| > 0
  {
    DropRepeats(Tokens(s.assignments))
  }

  function RangeAt(s: Snapshot, b: seq<Token>, i: nat): DerivedRange
    requires HasPlacement(s) && i < |b|
  {
    ReplicasNotEmpty(s, b[i]);
    var replicas := Replicas(s, b[i]);
    DerivedRange(Previous(b, i), b[i], replicas[0], replicas[1..])
  }

  function DerivedRanges(s: Snapshot): (r: seq<DerivedRange>)
    requires HasPlacement(s)
    ensures |r| == |Boundaries(s)|
    ensures forall i :: 0 <= i < |r| ==> r[i] == RangeAt(s, Boundaries(s), i)
  {
    var b := Boundaries(s);
    seq(|b|, i requires 0 <= i < |b| => RangeAt(s, b, i))
  }

  /** The loop over boundaries that carries the previous one. */
  method ComputeDerivedRanges(s: Snapshot) returns (r: Option<seq<DerivedRange>>)
    requires Sorted(s.assignments) && (|s.assignments| > 0 ==> TargetCount(s) > 0)
    ensures r.None? <==> |s.assignments| == 0
    ensures r.Some? ==> r.value == DerivedRanges(s)
  {
    var boundaries := DropRepeats(Tokens(s.assignments));
    if |boundaries| == 0 { return None; }
    var previous := boundaries[|boundaries| - 1];
    var ranges: seq<DerivedRange> := [];
    for i := 0 to |boundaries|
      invariant previous == Previous(boundaries, if i == |boundaries| then 0 else i)
      invariant |ranges| == i && forall j :: 0 <= j < i ==> ranges[j] == RangeAt(s, boundaries, j)
    {
      var end := boundaries[i];
      var range := ComputeRange(s, previous, end);
      ranges := ranges + [range];
      previous := end;
    }
    RangesAreDerived(s, ranges);
    return Some(ranges);
  }

  lemma RangesAreDerived(s: Snapshot, ranges: seq<DerivedRange>)
    requires HasPlacement(s) && |ranges| == |Boundaries(s)|
    requires forall j :: 0 <= j < |ranges| ==> ranges[j] == RangeAt(s, Boundaries(s), j)
    ensures ranges == DerivedRanges(s)
  {
  }

  method ComputeRange(s: Snapshot, previous: Token, end: Token) returns (r: DerivedRange)
    requires Sorted(s.assignments) && HasPlacement(s)
    ensures |Replicas(s, end)| > 0
    ensures r == DerivedRange(previous, end, Replicas(s, end)[0], Replicas(s, end)[1..])
  {
    var replicas := ReplicaNodeIds(s, end);
    ReplicasNotEmpty(s, end);
    return DerivedRange(previous, end, replicas[0], replicas[1..]);
  }

  // ----- Every token of a piece is placed alike -----

  lemma BoundariesAreTokens(s: Snapshot)
    requires Sorted(s.assignments)
    ensures Increasing(Boundaries(s))
    ensures forall x :: x in Boundaries(s) <==> x in Tokens(s.assignments)
  {
    assert forall i, j :: 0 <= i < j < |s.assignments| ==> Before(s.assignments[i], s.assignments[j]);
    DropRepeatsIsIncreasing(Tokens(s.assignments));
    forall x ensures x in Boundaries(s) <==> x in Tokens(s.assignments) {
      DropRepeatsElements(Tokens(s.assignments), x);
    }
  }

  /** The clockwise order is constant over each piece of any partition that has all assignment
      tokens as boundaries, the wrapping piece included. */
  lemma ClockwiseConstant(s: seq<Assignment>, b: seq<Token>, t: Token)
    requires |b| > 0 && Increasing(b) && forall x :: x in Tokens(s) ==> x in b
    ensures Clockwise(s, t) == Clockwise(s, b[Slot(b, t)])
  {
    NoBoundaryBetween(Tokens(s), b, t);
    if CountBelow(b, t) == |b| {
      forall i | 0 <= i < |s| ensures s[i].token >= b[0] {
        assert Tokens(s)[i] in b;
      }
      CountBelowIs(Tokens(s), b[0], 0);
      assert s[|s|..] == [] && s[..|s|] == s && s[0..] == s && s[..0] == [];
    }
  }

  lemma ReplicasConstant(s: Snapshot, b: seq<Token>, t: Token)
    requires |b| > 0 && Increasing(b) && forall x :: x in Tokens(s.assignments) ==> x in b
    ensures Replicas(s, t) == Replicas(s, b[Slot(b, t)])
    ensures |s.assignments| > 0 ==> Owner(s.assignments, t) == Owner(s.assignments, b[Slot(b, t)])
  {
    ClockwiseConstant(s.assignments, b, t);
    if |s.assignments| > 0 {
      OwnerIsFirstClockwise(s.assignments, t);
      OwnerIsFirstClockwise(s.assignments, b[Slot(b, t)]);
    }
  }

  /** The range at a token's slot. */
  function RangeOf(s: Snapshot, t: Token): DerivedRange
    requires HasPlacement(s)
  {
    DerivedRanges(s)[Slot(Boundaries(s), t)]
  }

  /** A token's range carries exactly the token's own replicas. */
  lemma RangeOfIsPlacement(s: Snapshot, t: Token)
    requires Sorted(s.assignments) && HasPlacement(s)
    ensures [RangeOf(s, t).owner] + RangeOf(s, t).followers == Replicas(s, t)
    ensures RangeOf(s, t).owner == Owner(s.assignments, t)
  {
    var b := Boundaries(s);
    BoundariesAreTokens(s);
    ReplicasConstant(s, b, t);
    ReplicasNotEmpty(s, t);
    assert RangeOf(s, t) == RangeAt(s, b, Slot(b, t));
    HeadAndTail(Replicas(s, t));
  }

  lemma HeadAndTail(s: seq<NodeId>)
    requires |s| > 0
    ensures [s[0]] + s[1..] == s
  {
  }

  /** The derived ranges tile the ring: a token lies in exactly one, the range at its slot. */
  lemma RangesTileTheRing(s: Snapshot, i: nat, t: Token)
    requires Sorted(s.assignments) && HasPlacement(s) && i < |DerivedRanges(s)|
    ensures InInterval(DerivedRanges(s)[i].start, DerivedRanges(s)[i].end, t) <==> i == Slot(Boundaries(s), t)
    ensures InInterval(DerivedRanges(s)[i].start, DerivedRanges(s)[i].end, t) <==> DerivedRanges(s)[i] == RangeOf(s, t)
  {
    var b := Boundaries(s);
    BoundariesAreTokens(s);
    SlotIsTheOnlyPiece(b, i, t);
    if i != Slot(b, t) {
      assert b[i] != b[Slot(b, t)];
    }
  }
}
