/**
 The fault run's operation mix. Each worker walks the slots of the mix with a stride coprime to their number, so any
 full round of steps issues each operation exactly as often as configured.
 */
module OperationMix {
  const TWO_64: nat := 0x1_0000_0000_0000_0000

  // ----- Greatest common divisors -----

  function Gcd(a: nat, b: nat): nat
    decreases b
  {
    if b == 0 then a else Gcd(b, a % b)
  }

  method ComputeGcd(a: nat, b: nat) returns (g: nat)
    ensures g == Gcd(a, b)
  {
    var left, right := a, b;
    while right != 0
      invariant Gcd(left, right) == Gcd(a, b)
      decreases right
    {
      left, right := right, left % right;
    }
    return left;
  }

  ghost predicate Divides(d: nat, a: nat) {
    exists k: nat :: a == d * k
  }

  lemma DividesBy(d: nat, a: nat, k: nat)
    requires a == d * k
    ensures Divides(d, a)
  {
  }

  /** A common divisor of b and r divides every b * q + r. */
  lemma DividesCombination(d: nat, b: nat, q: nat, r: nat)
    requires Divides(d, b) && Divides(d, r)
    ensures Divides(d, b * q + r)
  {
    var x: nat :| b == d * x;
    var y: nat :| r == d * y;
    assert b * q + r == d * (x * q + y);
    DividesBy(d, b * q + r, x * q + y);
  }

  /** A common divisor of b and b * q + r divides r. */
  lemma DividesRemainder(d: nat, b: nat, q: nat, r: nat)
    requires Divides(d, b) && Divides(d, b * q + r)
    ensures Divides(d, r)
  {
    var x: nat :| b == d * x;
    var y: nat :| b * q + r == d * y;
    assert r == d * y - d * (x * q);
    assert r == d * (y - x * q);
    ProductSign(d, y - x * q);
    if y < x * q {
      DividesBy(d, r, 0);
    } else {
      DividesBy(d, r, y - x * q);
    }
  }

  lemma ProductSign(d: nat, z: int)
    ensures d * z >= 0 && z < 0 ==> d == 0
  {
    if d > 0 && z < 0 {
      assert d * z == z + (d - 1) * z;
    }
  }

  lemma FactorOfOne(d: nat, k: nat)
    requires d * k == 1
    ensures d == 1
  {
    Scale(d, 0, k);
  }

  /** The loop's result divides both numbers, and every common divisor divides it. */
  lemma {:induction false} GcdIsGreatest(a: nat, b: nat, d: nat)
    ensures Divides(Gcd(a, b), a) && Divides(Gcd(a, b), b)
    ensures Divides(d, a) && Divides(d, b) ==> Divides(d, Gcd(a, b))
    decreases b
  {
    if b == 0 {
      DividesBy(a, a, 1);
      DividesBy(a, 0, 0);
    } else {
      GcdIsGreatest(b, a % b, d);
      assert a == b * (a / b) + a % b;
      DividesCombination(Gcd(a, b), b, a / b, a % b);
      if Divides(d, a) && Divides(d, b) {
        DividesRemainder(d, b, a / b, a % b);
      }
    }
  }

  /** No number but one divides both. */
  ghost predicate Coprime(a: nat, b: nat) {
    forall d: nat :: Divides(d, a) && Divides(d, b) ==> d == 1
  }

  /** The search's test for a coprime stride is exact. */
  lemma {:induction false} GcdOneMeansCoprime(a: nat, b: nat)
    ensures Gcd(a, b) == 1 <==> Coprime(a, b)
  {
    GcdIsGreatest(a, b, 1);
    if Gcd(a, b) == 1 {
      forall d: nat | Divides(d, a) && Divides(d, b) ensures d == 1 {
        GcdIsGreatest(a, b, d);
        var k: nat :| 1 == d * k;
        FactorOfOne(d, k);
      }
    }
  }

  /** Integers x and y with a * x + b * y == Gcd(a, b). */
  ghost function Bezout(a: nat, b: nat): (r: (int, int))
    ensures a * r.0 + b * r.1 == Gcd(a, b)
    decreases b
  {
    if b == 0 then (1, 0)
    else
      var (x, y) := Bezout(b, a % b);
      BezoutStep(a, b, x, y);
      (y, x - (a / b) * y)
  }

  lemma BezoutStep(a: nat, b: nat, x: int, y: int)
    requires b > 0
    ensures a * y + b * (x - (a / b) * y) == b * x + (a % b) * y
  {
    var q := a / b;
    assert a == b * q + a % b;
    assert a * y == b * q * y + (a % b) * y;
    assert b * (x - q * y) == b * x - b * q * y;
  }

  lemma CombinationCancels(s: nat, n: nat, d: int, k: int, x: int, y: int)
    requires s * x + n * y == 1 && s * d == n * k
    ensures d == n * (k * x + d * y)
  {
    calc {
      d;
      d * (s * x + n * y);
      d * (s * x) + d * (n * y);
      (s * d) * x + n * (d * y);
      (n * k) * x + n * (d * y);
      n * (k * x) + n * (d * y);
      n * (k * x + d * y);
    }
  }

  /** If n shares no factor with s and divides s * d, it divides d. */
  lemma CoprimeCancels(s: nat, n: nat, d: int, k: int) returns (m: int)
    requires Gcd(s, n) == 1 && s * d == n * k
    ensures d == n * m
  {
    var (x, y) := Bezout(s, n);
    CombinationCancels(s, n, d, k, x, y);
    return k * x + d * y;
  }

  lemma Remainder(a: nat, n: nat, q: nat, r: nat)
    requires r < n && a == n * q + r
    ensures a % n == r
  {
    var p := a / n;
    assert a == n * p + a % n;
    Scale(n, p, q);
    Scale(n, q, p);
  }

  lemma {:induction false} Scale(n: nat, x: nat, y: nat)
    ensures x < y ==> n * x + n <= n * y
    decreases y
  {
    if x < y {
      OneMore(n, y - 1);
      Scale(n, x, y - 1);
    }
  }

  lemma OneMore(n: nat, y: nat)
    ensures n * (y + 1) == n * y + n
  {
  }

  lemma {:induction false} GcdWithOne(n: nat)
    ensures Gcd(n, 1) == 1
  {
    Remainder(n, 1, n, 0);
    assert Gcd(1, 0) == 1;
  }

  lemma {:induction false} OneAboveMultiple(m: nat, n: nat)
    requires n > 1
    ensures Gcd(n * m + 1, n) == 1
  {
    Remainder(n * m + 1, n, m, 1);
    GcdWithOne(n);
  }

  lemma OneBelow(n: nat)
    requires n > 2
    ensures Gcd(n - 1, n) == 1
  {
    Remainder(n - 1, n, 0, n - 1);
    Remainder(n, n - 1, 1, 1);
    GcdWithOne(n - 1);
    assert Gcd(n, n - 1) == Gcd(n - 1, 1);
  }

  lemma CoprimeNearby(total: nat) returns (bound: nat)
    requires total > 1
    ensures bound >= 37 && Gcd(bound, total) == 1 && (bound < total || bound <= 74)
  {
    if total >= 38 {
      OneBelow(total);
      return total - 1;
    }
    var m := 36 / total + 1;
    assert 36 == total * (m - 1) + 36 % total;
    assert total * m == total * (m - 1) + total;
    OneAboveMultiple(m, total);
    return total * m + 1;
  }

  /** `coprime_stride` terminates for every total, and below the total or within a small constant, so the 64-bit search
      never overflows. */
  method CoprimeStride(total: nat) returns (stride: nat)
    ensures total > 0 ==> Gcd(stride, total) == 1 && Coprime(stride, total)
    ensures total <= 1 ==> stride == 1
    ensures total > 1 ==> && stride >= 37 && (forall s: nat :: 37 <= s < stride ==> !Coprime(s, total))
                          && (stride < total || stride <= 74)
  {
    if total <= 1 {
      GcdWithOne(1);
      GcdOneMeansCoprime(1, total);
      return 1;
    }
    ghost var bound := CoprimeNearby(total);
    stride := 37;
    var g := ComputeGcd(stride, total);
    while g != 1
      invariant 37 <= stride <= bound && g == Gcd(stride, total)
      invariant forall s: nat :: 37 <= s < stride ==> !Coprime(s, total)
      decreases bound - stride
    {
      GcdOneMeansCoprime(stride, total);
      stride := stride + 1;
      g := ComputeGcd(stride, total);
    }
    GcdOneMeansCoprime(stride, total);
  }

  // ----- The walk -----

  datatype Operation = Get | Put | Delete

  datatype Mix = Mix(get: nat, put: nat, delete: nat, total: nat, stride: nat)

  /** What parsing leaves: a positive total that did not saturate, and a stride without a common factor. */
  ghost predicate Parsed(m: Mix) {
    m.total == m.get + m.put + m.delete && m.total > 0 && Gcd(m.stride, m.total) == 1
  }

  /** The walk's position before 64-bit arithmetic takes it. */
  function Position(m: Mix, step: nat, worker: nat): nat {
    step * m.stride + worker * 11
  }

  function Slot(m: Mix, step: nat, worker: nat): (slot: nat)
    requires m.total > 0
    ensures slot < m.total
  {
    WrappingSum(step * m.stride, worker * 11) % m.total
  }

  /** `wrapping_add` of a wrapped product. */
  function WrappingSum(product: nat, offset: nat): nat {
    (product % TWO_64 + offset) % TWO_64
  }

  /** `choose`, in wrapping 64-bit arithmetic. */
  function Choose(m: Mix, step: nat, worker: nat): Operation
    requires m.total > 0
  {
    OperationAt(m, Slot(m, step, worker))
  }

  function OperationAt(m: Mix, slot: nat): Operation {
    if slot < m.get then Get else if slot < m.get + m.put then Put else Delete
  }

  /** The slots of n steps. */
  function Slots(m: Mix, first: nat, worker: nat, n: nat): (r: seq<nat>)
    requires m.total > 0
    ensures |r| == n && forall i :: 0 <= i < n ==> r[i] == Slot(m, first + i, worker)
  {
    if n == 0 then [] else Slots(m, first, worker, n - 1) + [Slot(m, first + n - 1, worker)]
  }

  lemma WrapTwice(p: nat, w: nat)
    ensures (p % TWO_64 + w) % TWO_64 == (p + w) % TWO_64
  {
    var x, y := p / TWO_64, (p % TWO_64 + w) / TWO_64;
    var r := (p % TWO_64 + w) % TWO_64;
    assert p + w == TWO_64 * (x + y) + r;
    Remainder(p + w, TWO_64, x + y, r);
  }

  /** A slot is the position, wrapped once and taken modulo the total. */
  lemma SlotOfPosition(m: Mix, step: nat, worker: nat)
    requires m.total > 0
    ensures Slot(m, step, worker) == Position(m, step, worker) % TWO_64 % m.total
  {
    WrapTwice(step * m.stride, worker * 11);
  }

  lemma Remainders(a: nat, b: nat, n: nat)
    requires n > 0 && a % n == b % n
    ensures b - a == n * (b / n - a / n)
  {
    assert a == n * (a / n) + a % n && b == n * (b / n) + b % n;
  }

  lemma Spread(i: nat, j: nat, s: nat)
    requires i <= j
    ensures j * s - i * s == s * (j - i) && i * s <= j * s
  {
  }

  lemma NotAMultiple(d: nat, n: nat, k: int)
    requires 0 < d < n
    ensures d != n * k
  {
    if k >= 1 {
      assert n * k >= n;
    } else {
      assert n * k <= 0;
    }
  }

  lemma {:induction false} RemaindersDiffer(a: nat, b: nat, s: nat, d: nat, n: nat)
    requires n > 0 && Gcd(s, n) == 1 && b - a == s * d && 0 < d < n
    ensures a % n != b % n
  {
    if a % n == b % n {
      Remainders(a, b, n);
      var k := CoprimeCancels(s, n, d, b / n - a / n);
      NotAMultiple(d, n, k);
    }
  }

  lemma Recompose(n: nat, y: nat, x: nat, z: nat, r: nat)
    ensures n * y * x + (n * z + r) == n * (y * x + z) + r
  {
  }

  /** Where the total divides the wrap, wrapping does not change a remainder. */
  lemma WrapKeepsRemainder(p: nat, wrap: nat, n: nat)
    requires n > 0 && wrap > 0 && wrap % n == 0
    ensures p % wrap % n == p % n
  {
    var x, r, y := p / wrap, p % wrap, wrap / n;
    assert wrap == n * y + wrap % n;
    Recompose(n, y, x, r / n, r % n);
    assert r == n * (r / n) + r % n;
    Remainder(p, n, y * x + r / n, r % n);
  }

  /** Positions behind the same wrap keep their distance. */
  lemma SameWrap(p: nat, q: nat, wrap: nat)
    requires wrap > 0 && p / wrap == q / wrap
    ensures q % wrap - p % wrap == q - p
  {
    assert p == wrap * (p / wrap) + p % wrap && q == wrap * (q / wrap) + q % wrap;
  }

  lemma {:induction false} PositionsDiffer(p: nat, q: nat, s: nat, d: nat, n: nat)
    requires n > 0 && Gcd(s, n) == 1 && q - p == s * d && 0 < d < n
    requires p / TWO_64 == q / TWO_64 || TWO_64 % n == 0
    ensures p % TWO_64 % n != q % TWO_64 % n
  {
    if TWO_64 % n == 0 {
      WrapKeepsRemainder(p, TWO_64, n);
      WrapKeepsRemainder(q, TWO_64, n);
      RemaindersDiffer(p, q, s, d, n);
    } else {
      SameWrap(p, q, TWO_64);
      RemaindersDiffer(p % TWO_64, q % TWO_64, s, d, n);
    }
  }

  /** Two steps of one round never meet in a slot unless a wrap that the total does not divide lies between them. */
  lemma StepsDiffer(m: Mix, i: nat, j: nat, worker: nat)
    requires Parsed(m) && i < j < i + m.total
    requires Position(m, i, worker) / TWO_64 == Position(m, j, worker) / TWO_64 || TWO_64 % m.total == 0
    ensures Slot(m, i, worker) != Slot(m, j, worker)
  {
    Spread(i, j, m.stride);
    SlotOfPosition(m, i, worker);
    SlotOfPosition(m, j, worker);
    PositionsDiffer(Position(m, i, worker), Position(m, j, worker), m.stride, j - i, m.total);
  }

  // ----- Counting -----

  function CountIn(s: seq<nat>, lo: nat, hi: nat): nat {
    if s == [] then 0 else CountIn(s[..|s| - 1], lo, hi) + if lo <= s[|s| - 1] < hi then 1 else 0
  }

  ghost predicate Distinct(s: seq<nat>) {
    forall i, j :: 0 <= i < j < |s| ==> s[i] != s[j]
  }

  function Interval(lo: nat, hi: nat): (r: set<nat>)
    requires lo <= hi
    ensures |r| == hi - lo && forall x :: x in r <==> lo <= x < hi
  {
    if lo == hi then {} else Interval(lo, hi - 1) + {hi - 1}
  }

  function ValuesIn(s: seq<nat>, lo: nat, hi: nat): set<nat> {
    set x | x in s && lo <= x < hi
  }

  lemma ValuesAdded(s: seq<nat>, x: nat, lo: nat, hi: nat)
    requires x !in s
    ensures ValuesIn(s + [x], lo, hi) == ValuesIn(s, lo, hi) + if lo <= x < hi then {x} else {}
    ensures x !in ValuesIn(s, lo, hi)
  {
    forall y ensures y in ValuesIn(s + [x], lo, hi) <==> y in ValuesIn(s, lo, hi) + if lo <= x < hi then {x} else {} {
      assert y in s + [x] <==> y in s || y == x;
    }
  }

  lemma {:induction false} CountIsCardinality(s: seq<nat>, lo: nat, hi: nat)
    requires Distinct(s)
    ensures CountIn(s, lo, hi) == |ValuesIn(s, lo, hi)|
  {
    if s == [] {
      assert ValuesIn(s, lo, hi) == {};
    } else {
      var init, last := s[..|s| - 1], s[|s| - 1];
      CountIsCardinality(init, lo, hi);
      ValuesAdded(init, last, lo, hi);
      assert s == init + [last];
    }
  }

  lemma {:induction false} CountAll(s: seq<nat>, lo: nat, hi: nat)
    requires forall x :: x in s ==> lo <= x < hi
    ensures CountIn(s, lo, hi) == |s|
  {
    if s != [] {
      var init, last := s[..|s| - 1], s[|s| - 1];
      assert last in s && forall x :: x in init ==> x in s;
      CountAll(init, lo, hi);
    }
  }

  /** As many different slots as there are: every slot occurs exactly once. */
  lemma {:induction false} PermutationCounts(s: seq<nat>, lo: nat, hi: nat)
    requires Distinct(s) && (forall x :: x in s ==> x < |s|) && lo <= hi <= |s|
    ensures CountIn(s, lo, hi) == hi - lo
  {
    CountIsCardinality(s, lo, hi);
    CountIsCardinality(s, 0, |s|);
    CountAll(s, 0, |s|);
    SubsetOfSameSize(ValuesIn(s, 0, |s|), Interval(0, |s|));
    forall x | lo <= x < hi ensures x in s {
      assert x in Interval(0, |s|);
    }
    assert ValuesIn(s, lo, hi) == Interval(lo, hi);
  }

  lemma {:induction false} SubsetOfSameSize(a: set<nat>, b: set<nat>)
    requires a <= b && |a| == |b|
    ensures a == b
  {
    assert |b - a| == |b| - |a|;
    assert b == a + (b - a);
  }

  /** How often a worker issues an operation in n steps. */
  function CountOperation(m: Mix, first: nat, worker: nat, n: nat, op: Operation): nat
    requires m.total > 0
  {
    if n == 0 then 0
    else CountOperation(m, first, worker, n - 1, op) + if Choose(m, first + n - 1, worker) == op then 1 else 0
  }

  function SlotsOf(m: Mix, op: Operation): (nat, nat) {
    match op
    case Get => (0, m.get)
    case Put => (m.get, m.get + m.put)
    case Delete => (m.get + m.put, m.get + m.put + m.delete)
  }

  lemma {:induction false} CountSnoc(s: seq<nat>, x: nat, lo: nat, hi: nat)
    ensures CountIn(s + [x], lo, hi) == CountIn(s, lo, hi) + if lo <= x < hi then 1 else 0
  {
    assert (s + [x])[..|s|] == s;
  }

  lemma {:induction false} CountThroughSlots(m: Mix, first: nat, worker: nat, n: nat, op: Operation)
    requires Parsed(m)
    ensures CountOperation(m, first, worker, n, op) == CountIn(Slots(m, first, worker, n), SlotsOf(m, op).0, SlotsOf(m, op).1)
  {
    if n > 0 {
      CountThroughSlots(m, first, worker, n - 1, op);
      CountSnoc(Slots(m, first, worker, n - 1), Slot(m, first + n - 1, worker), SlotsOf(m, op).0, SlotsOf(m, op).1);
    }
  }

  /** No step of the round starting at `first` lies behind another 64-bit wrap than the rest. */
  predicate NoWrapInside(m: Mix, first: nat, worker: nat)
    requires m.total > 0
  {
    Position(m, first, worker) / TWO_64 == Position(m, first + m.total - 1, worker) / TWO_64
  }

  lemma QuotientRises(p: nat, x: nat, wrap: nat)
    requires wrap > 0 && p <= x
    ensures p / wrap <= x / wrap
  {
    var a, b := p / wrap, x / wrap;
    assert p == wrap * a + p % wrap && x == wrap * b + x % wrap;
    Scale(wrap, b, a);
  }

  lemma BetweenQuotients(p: nat, x: nat, q: nat, wrap: nat)
    requires wrap > 0 && p <= x <= q && p / wrap == q / wrap
    ensures x / wrap == p / wrap
  {
    QuotientRises(p, x, wrap);
    QuotientRises(x, q, wrap);
  }

  lemma StepsShareWrap(m: Mix, first: nat, worker: nat, i: nat)
    requires m.total > 0 && NoWrapInside(m, first, worker) && first <= i < first + m.total
    ensures Position(m, i, worker) / TWO_64 == Position(m, first, worker) / TWO_64
  {
    Spread(first, i, m.stride);
    Spread(i, first + m.total - 1, m.stride);
    BetweenQuotients(Position(m, first, worker), Position(m, i, worker), Position(m, first + m.total - 1, worker), TWO_64);
  }

  lemma {:induction false} RoundIsDistinct(m: Mix, first: nat, worker: nat)
    requires Parsed(m) && (NoWrapInside(m, first, worker) || TWO_64 % m.total == 0)
    ensures Distinct(Slots(m, first, worker, m.total))
  {
    var s := Slots(m, first, worker, m.total);
    forall i, j | 0 <= i < j < |s| ensures s[i] != s[j] {
      if NoWrapInside(m, first, worker) {
        StepsShareWrap(m, first, worker, first + i);
        StepsShareWrap(m, first, worker, first + j);
      }
      StepsDiffer(m, first + i, first + j, worker);
    }
  }

  /** Over any `total` consecutive steps with no wrap inside, or with a total that divides 2^64, each worker issues each
      operation exactly as often as configured. */
  lemma {:induction false} RoundIsExact(m: Mix, first: nat, worker: nat, op: Operation)
    requires Parsed(m) && (NoWrapInside(m, first, worker) || TWO_64 % m.total == 0)
    ensures CountOperation(m, first, worker, m.total, op) == SlotsOf(m, op).1 - SlotsOf(m, op).0
  {
    RoundIsDistinct(m, first, worker);
    CountThroughSlots(m, first, worker, m.total, op);
    PermutationCounts(Slots(m, first, worker, m.total), SlotsOf(m, op).0, SlotsOf(m, op).1);
  }

  // ----- Rounds with a wrap inside -----

  lemma Complete(s: seq<nat>, v: nat)
    requires Distinct(s) && (forall x :: x in s ==> x < |s|) && v < |s|
    ensures v in s
  {
    CountIsCardinality(s, 0, |s|);
    CountAll(s, 0, |s|);
    SubsetOfSameSize(ValuesIn(s, 0, |s|), Interval(0, |s|));
    assert v in ValuesIn(s, 0, |s|);
  }

  lemma MissingMeansRepeated(s: seq<nat>, v: nat)
    requires (forall x :: x in s ==> x < |s|) && v < |s| && v !in s
    ensures !Distinct(s)
  {
    if Distinct(s) {
      Complete(s, v);
    }
  }

  lemma AddBoth(a: nat, b: nat, c: nat, n: nat)
    requires n > 0 && a % n == b % n
    ensures (a + c) % n == (b + c) % n
  {
    Remainders(a, b, n);
    var q, r := (a + c) / n, (a + c) % n;
    var k := b / n - a / n;
    assert b + c == n * (q + k) + r by { assert a + c == n * q + r; }
    ShiftedRemainder(b + c, n, q + k, r);
  }

  lemma ShiftedRemainder(a: nat, n: nat, q: int, r: nat)
    requires r < n && a == n * q + r
    ensures a % n == r
  {
    ProductSign(n, q + 1);
    assert n * (q + 1) == n * q + n;
    Remainder(a, n, q, r);
  }

  /** Going back by a number the total does not divide changes the remainder. */
  lemma BackChanges(v: nat, wrap: nat, n: nat)
    requires n > 0 && wrap <= v && wrap % n != 0
    ensures (v - wrap) % n != v % n
  {
    if (v - wrap) % n == v % n {
      Remainders(v - wrap, v, n);
      var k := v / n - (v - wrap) / n;
      ShiftedRemainder(wrap, n, k, 0);
    }
  }

  /** A walk of n steps of width s and one more: no two of a round agree modulo n, behind the wrap or in front of it. */
  ghost predicate Walk(v: seq<nat>, s: nat, n: nat, wrap: nat) {
    && n > 0 && |v| == n + 1
    && (forall i :: 0 <= i < n ==> v[i + 1] == v[i] + s)
    && (forall i, j :: 0 <= i < j <= n && j - i < n ==> v[i] % n != v[j] % n)
    && (forall i, j :: 0 <= i < j <= n && j - i < n && wrap <= v[i] && wrap <= v[j] ==> (v[i] - wrap) % n != (v[j] - wrap) % n)
  }

  function Wrapped(x: nat, wrap: nat): nat {
    if x < wrap then x else x - wrap
  }

  ghost predicate SlotsOfWalk(v: seq<nat>, n: nat, wrap: nat, slots: seq<nat>) {
    n > 0 && |v| == n + 1 && |slots| == n && forall i :: 0 <= i < n ==> slots[i] == Wrapped(v[i], wrap) % n
  }

  /** The turn behind the one that meets the last slot is a slot the round misses. */
  lemma NextTurnIsMissed(v: seq<nat>, s: nat, n: nat, wrap: nat, slots: seq<nat>, j: nat)
    requires Walk(v, s, n, wrap) && SlotsOfWalk(v, n, wrap, slots) && j + 1 < n
    requires v[0] < wrap <= v[j] && wrap <= v[n - 1] && v[j] % n == slots[n - 1]
    ensures v[j + 1] % n !in slots
  {
    AddBoth(v[n - 1] - wrap, v[j], s, n);
    assert v[n] - wrap == v[n - 1] - wrap + s && v[j + 1] == v[j] + s;
    forall k | 0 <= k < n ensures slots[k] != v[j + 1] % n {
      if v[k] < wrap {
        WalkRises(v, s, n, wrap, j, j + 1);
        assert k != j + 1;
      } else {
        assert 0 < k;
        WalkRises(v, s, n, wrap, k, n);
      }
    }
  }

  lemma {:induction false} WalkRises(v: seq<nat>, s: nat, n: nat, wrap: nat, i: nat, j: nat)
    requires Walk(v, s, n, wrap) && i <= j <= n
    ensures v[i] <= v[j]
  {
    if i < j {
      WalkRises(v, s, n, wrap, i, j - 1);
      assert v[j - 1 + 1] == v[j - 1] + s;
    }
  }

  /** A round with one wrap inside that the total does not divide repeats a slot. */
  lemma WrapInsideRepeats(v: seq<nat>, s: nat, n: nat, wrap: nat, slots: seq<nat>)
    requires Walk(v, s, n, wrap) && SlotsOfWalk(v, n, wrap, slots) && v[0] < wrap <= v[n - 1] && wrap % n != 0
    ensures !Distinct(slots)
  {
    var turns := seq(n, i requires 0 <= i < n => v[i] % n);
    assert Distinct(turns);
    Complete(turns, slots[n - 1]);
    var j :| 0 <= j < n && turns[j] == slots[n - 1];
    BackChanges(v[n - 1], wrap, n);
    if v[j] < wrap {
      assert slots[j] == slots[n - 1];
    } else {
      NextTurnIsMissed(v, s, n, wrap, slots, j);
      MissingMeansRepeated(slots, v[j + 1] % n);
    }
  }

  lemma Distance(r: nat, s: nat, i: nat, j: nat)
    requires i <= j
    ensures (r + s * j) - (r + s * i) == s * (j - i) && r + s * i <= r + s * j
  {
  }

  function WalkFrom(r: nat, s: nat, count: nat): (v: seq<nat>)
    ensures |v| == count + 1 && v[0] == r && forall i :: 0 <= i <= count ==> v[i] == r + s * i
  {
    if count == 0 then [r] else WalkFrom(r, s, count - 1) + [r + s * count]
  }

  lemma {:induction false} TurnsDiffer(a: nat, b: nat, s: nat, d: nat, n: nat, wrap: nat)
    requires n > 0 && Gcd(s, n) == 1 && b - a == s * d && 0 < d < n
    ensures a % n != b % n && (wrap <= a && wrap <= b ==> (a - wrap) % n != (b - wrap) % n)
  {
    RemaindersDiffer(a, b, s, d, n);
    if wrap <= a && wrap <= b {
      RemaindersDiffer(a - wrap, b - wrap, s, d, n);
    }
  }

  lemma {:induction false} WalkIsWalk(r: nat, s: nat, n: nat, wrap: nat)
    requires n > 0 && Gcd(s, n) == 1
    ensures Walk(WalkFrom(r, s, n), s, n, wrap)
  {
    var v := WalkFrom(r, s, n);
    forall i, j | 0 <= i < j <= n && j - i < n
      ensures v[i] % n != v[j] % n && (wrap <= v[i] && wrap <= v[j] ==> (v[i] - wrap) % n != (v[j] - wrap) % n)
    {
      Distance(r, s, i, j);
      TurnsDiffer(v[i], v[j], s, j - i, n, wrap);
    }
    forall i | 0 <= i < n ensures v[i + 1] == v[i] + s {
      Distance(r, s, i, i + 1);
    }
  }

  /** Going on from a position by at most one wrap. */
  lemma GoOn(p: nat, x: nat, wrap: nat)
    requires 0 < wrap && x <= wrap
    ensures (p + x) % wrap == Wrapped(p % wrap + x, wrap)
    ensures (p + x) / wrap == p / wrap <==> p % wrap + x < wrap
  {
    var q, r := p / wrap, p % wrap;
    assert p + x == wrap * q + (r + x);
    if r + x < wrap {
      Quotient(p + x, wrap, q, r + x);
    } else {
      assert p + x == wrap * (q + 1) + (r + x - wrap);
      Quotient(p + x, wrap, q + 1, r + x - wrap);
    }
  }

  lemma Quotient(a: nat, n: nat, q: nat, r: nat)
    requires r < n && a == n * q + r
    ensures a % n == r && a / n == q
  {
    Remainder(a, n, q, r);
    var p := a / n;
    assert n * p == n * q;
    Scale(n, p, q);
    Scale(n, q, p);
  }

  lemma RoundIsWalk(m: Mix, first: nat, worker: nat, i: nat)
    requires m.total > 0 && m.stride * m.total <= TWO_64 && i < m.total
    ensures var r := Position(m, first, worker) % TWO_64;
            && Slot(m, first + i, worker) == Wrapped(r + m.stride * i, TWO_64) % m.total
            && (Position(m, first + i, worker) / TWO_64 == Position(m, first, worker) / TWO_64 <==> r + m.stride * i < TWO_64)
  {
    SlotOfPosition(m, first + i, worker);
    PositionGoesOn(m, first, worker, i);
    Scale(m.stride, i, m.total);
    GoesOn(Position(m, first, worker), m.stride * i, Position(m, first + i, worker), m.total);
  }

  lemma GoesOn(p: nat, x: nat, q: nat, n: nat)
    requires n > 0 && q == p + x && x <= TWO_64
    ensures q % TWO_64 % n == Wrapped(p % TWO_64 + x, TWO_64) % n
    ensures q / TWO_64 == p / TWO_64 <==> p % TWO_64 + x < TWO_64
  {
    GoOn(p, x, TWO_64);
  }

  lemma PositionGoesOn(m: Mix, first: nat, worker: nat, i: nat)
    ensures Position(m, first + i, worker) == Position(m, first, worker) + m.stride * i
  {
  }

  lemma {:induction false} WrapInsideMisses(m: Mix, first: nat, worker: nat)
    requires Parsed(m) && m.stride * m.total <= TWO_64 && !NoWrapInside(m, first, worker) && TWO_64 % m.total != 0
    ensures !Distinct(Slots(m, first, worker, m.total))
  {
    var n, r := m.total, Position(m, first, worker) % TWO_64;
    var v, slots := WalkFrom(r, m.stride, n), Slots(m, first, worker, n);
    WalkIsWalk(r, m.stride, n, TWO_64);
    forall i | 0 <= i < n ensures slots[i] == Wrapped(v[i], TWO_64) % n {
      RoundIsWalk(m, first, worker, i);
    }
    RoundIsWalk(m, first, worker, n - 1);
    WrapInsideRepeats(v, m.stride, n, TWO_64, slots);
  }

  /** A round that passes at most one wrap visits every slot exactly once if and only if no wrap falls inside it or the
      total divides 2^64. */
  lemma {:induction false} RoundIsPermutation(m: Mix, first: nat, worker: nat)
    requires Parsed(m) && m.stride * m.total <= TWO_64
    ensures Distinct(Slots(m, first, worker, m.total)) <==> NoWrapInside(m, first, worker) || TWO_64 % m.total == 0
  {
    if NoWrapInside(m, first, worker) || TWO_64 % m.total == 0 {
      RoundIsDistinct(m, first, worker);
    } else {
      WrapInsideMisses(m, first, worker);
    }
  }

  /** An input on which a wrapping round misses its mix: it never gets. */
  lemma WrappedRoundIsInexact()
    ensures var m := Mix(1, 1, 1, 3, 37);
            Parsed(m) && CountOperation(m, 498_560_650_640_798_692, 0, 3, Get) != 1
  {
    var m := Mix(1, 1, 1, 3, 37);
    assert Gcd(37, 3) == Gcd(3, 1) == Gcd(1, 0);
    var first := 498_560_650_640_798_692;
    assert Slot(m, first, 0) == (first * 37 % TWO_64) % 3;
  }
}
