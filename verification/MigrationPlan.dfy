/**
 The delta between two topologies: which ranges change owner, and which followers are new.
 */
module MigrationPlan {
  import opened Ring
  import opened Topology
  import opened Ranges

  const MAX_MIGRATION_RANGES: nat := 16_384
  const MAX_REPLICA_OBLIGATIONS: nat := 131_072

  datatype RangeMove = RangeMove(start: Token, end: Token, source: NodeId, destination: NodeId)

  datatype Obligation = Obligation(start: Token, end: Token, source: NodeId, destination: NodeId)

  datatype DeltaError = NoAssignments | TooManyRanges | TooManyReplicaObligations

  // ----- The ordered set of boundaries -----

  function InsertToken(b: seq<Token>, t: Token): seq<Token> {
    if b == [] || b[|b| - 1] < t then b + [t]
    else if b[|b| - 1] == t then b
    else InsertToken(b[..|b| - 1], t) + [b[|b| - 1]]
  }

  lemma {:induction false} InsertTokenIsSet(b: seq<Token>, t: Token)
    requires Increasing(b)
    ensures Increasing(InsertToken(b, t))
    ensures forall x :: x in InsertToken(b, t) <==> x in b || x == t
  {
    if b != [] && b[|b| - 1] > t {
      var init := b[..|b| - 1];
      InsertTokenIsSet(init, t);
      assert b == init + [b[|b| - 1]];
      var r := InsertToken(init, t);
      assert forall i :: 0 <= i < |r| ==> r[i] in init || r[i] == t;
    }
  }

  function OrderedTokens(s: seq<Token>): seq<Token> {
    if s == [] then [] else InsertToken(OrderedTokens(s[..|s| - 1]), s[|s| - 1])
  }

  lemma {:induction false} OrderedTokensIsSet(s: seq<Token>)
    ensures Increasing(OrderedTokens(s))
    ensures forall x :: x in OrderedTokens(s) <==> x in s
  {
    if s != [] {
      OrderedTokensIsSet(s[..|s| - 1]);
      InsertTokenIsSet(OrderedTokens(s[..|s| - 1]), s[|s| - 1]);
      assert s == s[..|s| - 1] + [s[|s| - 1]];
    }
  }

  function DeltaBoundaries(c: Snapshot, n: Snapshot): seq<Token> {
    OrderedTokens(Tokens(c.assignments + n.assignments))
  }

  // ----- The delta, piece by piece -----
  //
  // The two replica lists of every piece are all the delta looks at, so it is stated over them.

  ghost predicate Aligned(b: seq<Token>, olds: seq<seq<NodeId>>, news: seq<seq<NodeId>>) {
    && |olds| == |b| && |news| == |b|
    && (forall i :: 0 <= i < |b| ==> |olds[i]| > 0)
    && (forall i :: 0 <= i < |b| ==> |news[i]| > 0)
  }

  ghost function MoveAt(b: seq<Token>, olds: seq<seq<NodeId>>, news: seq<seq<NodeId>>, i: nat): RangeMove
    requires Aligned(b, olds, news) && i < |b|
  {
    RangeMove(Previous(b, i), b[i], olds[i][0], news[i][0])
  }

  ghost function MovesUpTo(b: seq<Token>, olds: seq<seq<NodeId>>, news: seq<seq<NodeId>>, k: nat): seq<RangeMove>
    requires Aligned(b, olds, news) && k <= |b|
  {
    if k == 0 then []
    else if olds[k - 1][0] != news[k - 1][0] then MovesUpTo(b, olds, news, k - 1) + [MoveAt(b, olds, news, k - 1)]
    else MovesUpTo(b, olds, news, k - 1)
  }

  /** The obligations of one piece for the first m followers of the target placement. */
  ghost function PieceObligations(b: seq<Token>, olds: seq<seq<NodeId>>, news: seq<seq<NodeId>>, i: nat, m: nat)
    : seq<Obligation>
    requires Aligned(b, olds, news) && i < |b| && m < |news[i]|
  {
    if m == 0 then []
    else
      var rest := PieceObligations(b, olds, news, i, m - 1);
      if news[i][m] in olds[i] then rest
      else rest + [Obligation(Previous(b, i), b[i], olds[i][0], news[i][m])]
  }

  ghost function ObligationsUpTo(b: seq<Token>, olds: seq<seq<NodeId>>, news: seq<seq<NodeId>>, k: nat): seq<Obligation>
    requires Aligned(b, olds, news) && k <= |b|
  {
    if k == 0 then []
    else ObligationsUpTo(b, olds, news, k - 1) + PieceObligations(b, olds, news, k - 1, |news[k - 1]| - 1)
  }

  lemma {:induction false} MovesGrow(b: seq<Token>, olds: seq<seq<NodeId>>, news: seq<seq<NodeId>>, j: nat, k: nat)
    requires Aligned(b, olds, news) && j <= k <= |b|
    ensures |MovesUpTo(b, olds, news, j)| <= |MovesUpTo(b, olds, news, k)|
    ensures |ObligationsUpTo(b, olds, news, j)| <= |ObligationsUpTo(b, olds, news, k)|
    decreases k
  {
    if j < k {
      MovesGrow(b, olds, news, j, k - 1);
    }
  }

  lemma {:induction false} PieceObligationsGrow(b: seq<Token>, olds: seq<seq<NodeId>>, news: seq<seq<NodeId>>,
                                                i: nat, j: nat, m: nat)
    requires Aligned(b, olds, news) && i < |b| && j <= m < |news[i]|
    ensures |PieceObligations(b, olds, news, i, j)| <= |PieceObligations(b, olds, news, i, m)|
    decreases m
  {
    if j < m {
      PieceObligationsGrow(b, olds, news, i, j, m - 1);
    }
  }

  lemma {:induction false} MoveElements(b: seq<Token>, olds: seq<seq<NodeId>>, news: seq<seq<NodeId>>, k: nat, m: RangeMove)
    requires Aligned(b, olds, news) && k <= |b|
    ensures m in MovesUpTo(b, olds, news, k)
       <==> exists i :: 0 <= i < k && olds[i][0] != news[i][0] && m == MoveAt(b, olds, news, i)
  {
    if k > 0 {
      MoveElements(b, olds, news, k - 1, m);
    }
  }

  ghost predicate EndsIncrease(ms: seq<RangeMove>) {
    forall i, j :: 0 <= i < j < |ms| ==> ms[i].end < ms[j].end
  }

  lemma {:induction false} MoveEndsIncrease(b: seq<Token>, olds: seq<seq<NodeId>>, news: seq<seq<NodeId>>, k: nat)
    requires Aligned(b, olds, news) && k <= |b| && Increasing(b)
    ensures EndsIncrease(MovesUpTo(b, olds, news, k))
    ensures forall m :: m in MovesUpTo(b, olds, news, k) ==> k > 0 && m.end <= b[k - 1]
  {
    if k > 0 {
      MoveEndsIncrease(b, olds, news, k - 1);
      var before := MovesUpTo(b, olds, news, k - 1);
      forall m | m in before ensures m.end < b[k - 1] {
        assert m.end <= b[k - 2];
      }
    }
  }

  ghost predicate IsObligation(b: seq<Token>, olds: seq<seq<NodeId>>, news: seq<seq<NodeId>>, i: nat, o: Obligation)
    requires Aligned(b, olds, news) && i < |b|
  {
    && o.start == Previous(b, i) && o.end == b[i] && o.source == olds[i][0]
    && o.destination in news[i][1..] && o.destination !in olds[i]
  }

  lemma {:induction false} PieceElements(b: seq<Token>, olds: seq<seq<NodeId>>, news: seq<seq<NodeId>>,
                                         i: nat, m: nat, o: Obligation)
    requires Aligned(b, olds, news) && i < |b| && m < |news[i]|
    ensures o in PieceObligations(b, olds, news, i, m)
       <==> && o.start == Previous(b, i) && o.end == b[i] && o.source == olds[i][0]
            && o.destination in news[i][1..m + 1] && o.destination !in olds[i]
  {
    if m > 0 {
      PieceElements(b, olds, news, i, m - 1, o);
      assert news[i][1..m + 1] == news[i][1..m] + [news[i][m]];
    }
  }

  lemma {:induction false} ObligationElements(b: seq<Token>, olds: seq<seq<NodeId>>, news: seq<seq<NodeId>>, k: nat,
                                              o: Obligation)
    requires Aligned(b, olds, news) && k <= |b|
    ensures o in ObligationsUpTo(b, olds, news, k) <==> exists i :: 0 <= i < k && IsObligation(b, olds, news, i, o)
  {
    if k > 0 {
      ObligationElements(b, olds, news, k - 1, o);
      PieceElements(b, olds, news, k - 1, |news[k - 1]| - 1, o);
      assert news[k - 1][1..|news[k - 1]|] == news[k - 1][1..];
      if o in PieceObligations(b, olds, news, k - 1, |news[k - 1]| - 1) {
        assert IsObligation(b, olds, news, k - 1, o);
      }
    }
  }

  // ----- The algorithm -----

  ghost function ReplicaLists(s: Snapshot, b: seq<Token>): (r: seq<seq<NodeId>>)
    ensures |r| == |b| && forall i :: 0 <= i < |b| ==> r[i] == Replicas(s, b[i])
  {
    seq(|b|, i requires 0 <= i < |b| => Replicas(s, b[i]))
  }

  lemma PlacementIsAligned(c: Snapshot, n: Snapshot, b: seq<Token>)
    requires HasPlacement(c) && HasPlacement(n)
    ensures Aligned(b, ReplicaLists(c, b), ReplicaLists(n, b))
  {
    forall i | 0 <= i < |b| ensures |Replicas(c, b[i])| > 0 && |Replicas(n, b[i])| > 0 {
      ReplicasNotEmpty(c, b[i]);
      ReplicasNotEmpty(n, b[i]);
    }
  }

  /** Every range move of the delta between two topologies. */
  ghost function Moves(c: Snapshot, n: Snapshot): seq<RangeMove>
    requires HasPlacement(c) && HasPlacement(n)
  {
    var b := DeltaBoundaries(c, n);
    PlacementIsAligned(c, n, b);
    MovesUpTo(b, ReplicaLists(c, b), ReplicaLists(n, b), |b|)
  }

  /** Every new-follower obligation of the delta between two topologies. */
  ghost function Obligations(c: Snapshot, n: Snapshot): seq<Obligation>
    requires HasPlacement(c) && HasPlacement(n)
  {
    var b := DeltaBoundaries(c, n);
    PlacementIsAligned(c, n, b);
    ObligationsUpTo(b, ReplicaLists(c, b), ReplicaLists(n, b), |b|)
  }

  /** The followers' loop of one piece, stopping at the obligation limit. */
  method AddObligations(previous: Token, end: Token, olds: seq<NodeId>, news: seq<NodeId>, before: seq<Obligation>,
                        ghost b: seq<Token>, ghost os: seq<seq<NodeId>>, ghost ns: seq<seq<NodeId>>, ghost i: nat)
    returns (ok: bool, after: seq<Obligation>)
    requires Aligned(b, os, ns) && i < |b| && |before| <= MAX_REPLICA_OBLIGATIONS
    requires previous == Previous(b, i) && end == b[i] && olds == os[i] && news == ns[i]
    ensures ok <==> |before| + |PieceObligations(b, os, ns, i, |news| - 1)| <= MAX_REPLICA_OBLIGATIONS
    ensures ok ==> after == before + PieceObligations(b, os, ns, i, |news| - 1)
  {
    after := before;
    for m := 1 to |news|
      invariant after == before + PieceObligations(b, os, ns, i, m - 1)
      invariant |after| <= MAX_REPLICA_OBLIGATIONS
    {
      if news[m] !in olds {
        if |after| == MAX_REPLICA_OBLIGATIONS {
          PieceObligationsGrow(b, os, ns, i, m, |news| - 1);
          return false, after;
        }
        after := after + [Obligation(previous, end, olds[0], news[m])];
      }
    }
    return true, after;
  }

  method ComputeReplicaLists(s: Snapshot, b: seq<Token>) returns (r: seq<seq<NodeId>>)
    requires Sorted(s.assignments) && HasPlacement(s)
    ensures r == ReplicaLists(s, b)
  {
    r := [];
    for i := 0 to |b|
      invariant |r| == i && forall j :: 0 <= j < i ==> r[j] == Replicas(s, b[j])
    {
      var replicas := ReplicaNodeIds(s, b[i]);
      r := r + [replicas];
    }
  }

  /** The loop over the boundaries, carrying the previous one, with its two limits. */
  method DeltaOver(b: seq<Token>, olds: seq<seq<NodeId>>, news: seq<seq<NodeId>>)
    returns (r: Result<(seq<RangeMove>, seq<Obligation>), DeltaError>)
    requires Aligned(b, olds, news) && |b| > 0
    ensures r.Ok? <==> && |MovesUpTo(b, olds, news, |b|)| <= MAX_MIGRATION_RANGES
                       && |ObligationsUpTo(b, olds, news, |b|)| <= MAX_REPLICA_OBLIGATIONS
    ensures r.Ok? ==> r.value == (MovesUpTo(b, olds, news, |b|), ObligationsUpTo(b, olds, news, |b|))
  {
    var previous := b[|b| - 1];
    var moves, obligations := [], [];
    for i := 0 to |b|
      invariant previous == Previous(b, if i == |b| then 0 else i)
      invariant moves == MovesUpTo(b, olds, news, i) && |moves| <= MAX_MIGRATION_RANGES
      invariant obligations == ObligationsUpTo(b, olds, news, i) && |obligations| <= MAX_REPLICA_OBLIGATIONS
    {
      var end := b[i];
      MovesGrow(b, olds, news, i + 1, |b|);
      if olds[i][0] != news[i][0] {
        if |moves| == MAX_MIGRATION_RANGES { return Err(TooManyRanges); }
        moves := moves + [RangeMove(previous, end, olds[i][0], news[i][0])];
      }
      var ok, grown := AddObligations(previous, end, olds[i], news[i], obligations, b, olds, news, i);
      if !ok { return Err(TooManyReplicaObligations); }
      obligations := grown;
      previous := end;
    }
    return Ok((moves, obligations));
  }

  /** `topology_delta`. */
  method TopologyDelta(c: Snapshot, n: Snapshot) returns (r: Result<(seq<RangeMove>, seq<Obligation>), DeltaError>)
    requires Sorted(c.assignments) && Sorted(n.assignments) && HasPlacement(c) && HasPlacement(n)
    ensures r.Ok? <==> |Moves(c, n)| <= MAX_MIGRATION_RANGES && |Obligations(c, n)| <= MAX_REPLICA_OBLIGATIONS
    ensures r.Ok? ==> r.value == (Moves(c, n), Obligations(c, n))
  {
    var ordered := OrderedTokens(Tokens(c.assignments + n.assignments));
    PlacementIsAligned(c, n, ordered);
    DeltaBoundariesCover(c, n);
    var olds := ComputeReplicaLists(c, ordered);
    var news := ComputeReplicaLists(n, ordered);
    r := DeltaOver(ordered, olds, news);
  }

  // ----- Exactness -----

  lemma DeltaBoundariesCover(c: Snapshot, n: Snapshot)
    requires HasPlacement(c) && HasPlacement(n)
    ensures var b := DeltaBoundaries(c, n);
      && |b| > 0 && Increasing(b)
      && (forall x :: x in Tokens(c.assignments) ==> x in b)
      && (forall x :: x in Tokens(n.assignments) ==> x in b)
  {
    var both := Tokens(c.assignments + n.assignments);
    OrderedTokensIsSet(both);
    forall x | x in Tokens(c.assignments) ensures x in both {
      var i :| 0 <= i < |c.assignments| && c.assignments[i].token == x;
      assert both[i] == x;
    }
    forall x | x in Tokens(n.assignments) ensures x in both {
      var i :| 0 <= i < |n.assignments| && n.assignments[i].token == x;
      assert both[|c.assignments| + i] == x;
    }
    assert both[0] in OrderedTokens(both);
  }

  /** The replica lists at a token's slot are the token's own. */
  lemma PieceOfToken(c: Snapshot, n: Snapshot, t: Token)
    requires HasPlacement(c) && HasPlacement(n)
    ensures var b := DeltaBoundaries(c, n);
      && |b| > 0 && Increasing(b)
      && ReplicaLists(c, b)[Slot(b, t)] == Replicas(c, t)
      && ReplicaLists(n, b)[Slot(b, t)] == Replicas(n, t)
      && |Replicas(c, t)| > 0 && Replicas(c, t)[0] == Owner(c.assignments, t)
      && |Replicas(n, t)| > 0 && Replicas(n, t)[0] == Owner(n.assignments, t)
  {
    DeltaBoundariesCover(c, n);
    var b := DeltaBoundaries(c, n);
    ReplicasConstant(c, b, t);
    ReplicasConstant(n, b, t);
    ReplicasNotEmpty(c, t);
    ReplicasNotEmpty(n, t);
  }

  lemma {:induction false} SlotMove(b: seq<Token>, olds: seq<seq<NodeId>>, news: seq<seq<NodeId>>, t: Token, m: RangeMove)
    requires Aligned(b, olds, news) && |b| > 0 && Increasing(b)
    ensures m in MovesUpTo(b, olds, news, |b|) && InInterval(m.start, m.end, t)
       <==> olds[Slot(b, t)][0] != news[Slot(b, t)][0] && m == MoveAt(b, olds, news, Slot(b, t))
  {
    MoveElements(b, olds, news, |b|, m);
    SlotIsTheOnlyPiece(b, Slot(b, t), t);
    if m in MovesUpTo(b, olds, news, |b|) {
      var i :| 0 <= i < |b| && olds[i][0] != news[i][0] && m == MoveAt(b, olds, news, i);
      SlotIsTheOnlyPiece(b, i, t);
    }
  }

  /** A token lies in an emitted range iff its owner differs between the rings, and the range names
      exactly that old and new owner. */
  lemma MovesAreExact(c: Snapshot, n: Snapshot, t: Token)
    requires HasPlacement(c) && HasPlacement(n)
    ensures (exists m :: m in Moves(c, n) && InInterval(m.start, m.end, t))
       <==> Owner(c.assignments, t) != Owner(n.assignments, t)
    ensures forall m :: (m in Moves(c, n) && InInterval(m.start, m.end, t)
                         ==> m.source == Owner(c.assignments, t) && m.destination == Owner(n.assignments, t))
  {
    var b := DeltaBoundaries(c, n);
    var olds, news := ReplicaLists(c, b), ReplicaLists(n, b);
    PlacementIsAligned(c, n, b);
    PieceOfToken(c, n, t);
    var here := MoveAt(b, olds, news, Slot(b, t));
    SlotMove(b, olds, news, t, here);
    forall m | m in Moves(c, n) && InInterval(m.start, m.end, t) ensures m == here {
      SlotMove(b, olds, news, t, m);
    }
  }

  /** No token lies in two emitted ranges. */
  lemma MovesAreDisjoint(c: Snapshot, n: Snapshot, t: Token, i: nat, j: nat)
    requires HasPlacement(c) && HasPlacement(n)
    requires i < |Moves(c, n)| && InInterval(Moves(c, n)[i].start, Moves(c, n)[i].end, t)
    requires j < |Moves(c, n)| && InInterval(Moves(c, n)[j].start, Moves(c, n)[j].end, t)
    ensures i == j
  {
    var b := DeltaBoundaries(c, n);
    var olds, news := ReplicaLists(c, b), ReplicaLists(n, b);
    PlacementIsAligned(c, n, b);
    DeltaBoundariesCover(c, n);
    SlotMove(b, olds, news, t, Moves(c, n)[i]);
    SlotMove(b, olds, news, t, Moves(c, n)[j]);
    MoveEndsIncrease(b, olds, news, |b|);
  }

  lemma {:induction false} SlotObligation(b: seq<Token>, olds: seq<seq<NodeId>>, news: seq<seq<NodeId>>, t: Token,
                                          o: Obligation)
    requires Aligned(b, olds, news) && |b| > 0 && Increasing(b)
    ensures o in ObligationsUpTo(b, olds, news, |b|) && InInterval(o.start, o.end, t)
       <==> IsObligation(b, olds, news, Slot(b, t), o)
  {
    ObligationElements(b, olds, news, |b|, o);
    SlotIsTheOnlyPiece(b, Slot(b, t), t);
    if o in ObligationsUpTo(b, olds, news, |b|) {
      var i :| 0 <= i < |b| && IsObligation(b, olds, news, i, o);
      SlotIsTheOnlyPiece(b, i, t);
    }
  }

  /** The obligations are exactly the (token, follower) pairs new to the target placement, and each
      names the token's committed owner as its source. */
  lemma ObligationsAreExact(c: Snapshot, n: Snapshot, t: Token, follower: NodeId)
    requires HasPlacement(c) && HasPlacement(n)
    ensures |Replicas(n, t)| > 0
    ensures (exists o :: o in Obligations(c, n) && InInterval(o.start, o.end, t) && o.destination == follower)
       <==> follower in Replicas(n, t)[1..] && follower !in Replicas(c, t)
    ensures forall o :: o in Obligations(c, n) && InInterval(o.start, o.end, t) ==> o.source == Owner(c.assignments, t)
  {
    var b := DeltaBoundaries(c, n);
    var olds, news := ReplicaLists(c, b), ReplicaLists(n, b);
    PlacementIsAligned(c, n, b);
    PieceOfToken(c, n, t);
    var s := Slot(b, t);
    var here := Obligation(Previous(b, s), b[s], olds[s][0], follower);
    SlotObligation(b, olds, news, t, here);
    forall o | o in Obligations(c, n) && InInterval(o.start, o.end, t) ensures IsObligation(b, olds, news, s, o) {
      SlotObligation(b, olds, news, t, o);
    }
  }
}
