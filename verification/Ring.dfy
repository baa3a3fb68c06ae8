/**
 Tokens, half-open wrapping intervals, and partitions of the ring by boundaries.

 A ring partition is a strictly increasing sequence of boundaries `b`. Its i-th piece is the
 interval `(previous boundary, b[i]]`; the first piece wraps past the largest token. Everything the
 coordinator derives from a topology (ranges, migration ranges, merged ranges) is such a piece, so
 the two lemmas here, `SlotIsTheOnlyPiece` and `SlotThroughFinerPartition`, carry the geometry.
 */
module Ring {
  const MAX_TOKEN: nat := 0xFFFF_FFFF_FFFF_FFFF

  type Token = t: nat | t <= MAX_TOKEN

  /** Node ids are byte strings of at most 32 bytes under lexicographic order, a finite total order,
      so they are numbered by rank here. Rank 0 is the empty id. */
  type NodeId = nat

  /** The interval `(start, end]`, wrapping; it is the whole ring when `start == end`. */
  predicate InInterval(start: Token, end: Token, token: Token) {
    if start < end then start < token <= end
    else if start > end then token > start || token <= end
    else true
  }

  ghost predicate Increasing(b: seq<Token>) {
    forall i, j :: 0 <= i < j < |b| ==> b[i] < b[j]
  }

  /** How many leading boundaries lie below the token, or below the end of the ring one past the last token. */
  function CountBelow(b: seq<Token>, t: nat): (n: nat)
    ensures n <= |b|
    ensures forall i :: 0 <= i < n ==> b[i] < t
    ensures n < |b| ==> b[n] >= t
  {
    if |b| == 0 || b[0] >= t then 0 else 1 + CountBelow(b[1..], t)
  }

  /** The piece a token falls in: the first boundary at or after it, or the first one of all. */
  function Slot(b: seq<Token>, t: Token): (i: nat)
    requires |b| > 0
    ensures i < |b|
  {
    var n := CountBelow(b, t);
    if n == |b| then 0 else n
  }

  function Previous(b: seq<Token>, i: nat): Token
    requires i < |b|
  {
    if i == 0 then b[|b| - 1] else b[i - 1]
  }

  /** The pieces tile the ring: piece i holds exactly the tokens whose slot is i. */
  lemma SlotIsTheOnlyPiece(b: seq<Token>, i: nat, t: Token)
    requires Increasing(b) && i < |b|
    ensures InInterval(Previous(b, i), b[i], t) <==> i == Slot(b, t)
  {
    var n := CountBelow(b, t);
    if n < |b| && n < i {
      assert b[n] <= b[i - 1];
    }
    if i < n {
      assert b[i] < t;
    }
    if i == 0 {
      assert b[0] <= b[|b| - 1];
      if n < |b| && n > 0 {
        assert b[0] < t <= b[|b| - 1];
      }
    }
    if n == |b| && i > 0 {
      assert b[i - 1] < b[i] < t;
    }
  }

  /** A token and the end of its piece in a finer partition share their piece of a coarser one. */
  lemma SlotThroughFinerPartition(coarse: seq<Token>, fine: seq<Token>, t: Token)
    requires |coarse| > 0 && |fine| > 0 && Increasing(fine)
    requires forall x :: x in coarse ==> x in fine
    ensures Slot(coarse, t) == Slot(coarse, fine[Slot(fine, t)])
  {
    var n := CountBelow(fine, t);
    NoBoundaryBetween(coarse, fine, t);
    if n == |fine| {
      assert coarse[0] in fine;
      CountBelowIs(coarse, fine[0], 0);
    }
  }

  lemma {:induction false} CountBelowIs(b: seq<Token>, t: nat, n: nat)
    requires n <= |b|
    requires forall i :: 0 <= i < n ==> b[i] < t
    requires n < |b| ==> b[n] >= t
    ensures CountBelow(b, t) == n
  {
  }

  lemma {:induction false} NextFineBoundary(fine: seq<Token>, t: Token, x: Token)
    requires Increasing(fine) && x in fine && x >= t
    ensures CountBelow(fine, t) < |fine| && fine[CountBelow(fine, t)] <= x
  {
    var k :| 0 <= k < |fine| && fine[k] == x;
    assert CountBelow(fine, t) <= k;
  }

  /** No coarse boundary lies between a token and the next fine boundary. */
  lemma {:induction false} NoBoundaryBetween(coarse: seq<Token>, fine: seq<Token>, t: Token)
    requires Increasing(fine)
    requires forall x :: x in coarse ==> x in fine
    ensures var n := CountBelow(fine, t);
      if n == |fine| then CountBelow(coarse, t) == |coarse|
      else CountBelow(coarse, t) == CountBelow(coarse, fine[n])
  {
    var n, c := CountBelow(fine, t), CountBelow(coarse, t);
    if c < |coarse| {
      NextFineBoundary(fine, t, coarse[c]);
    }
    if n < |fine| {
      CountBelowIs(coarse, fine[n], c);
    }
  }
}
