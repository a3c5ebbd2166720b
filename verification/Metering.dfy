/** The rounding every estimator ends with, (p + d - 1) / d, over wrapping 64-bit integers. */
module Metering {
  import opened Go

  /** u is the ceiling of p / d: the least u with u * d >= p. */
  ghost predicate IsCeiling(u: int, p: int, d: int) {
    u * d >= p && (u - 1) * d < p
  }

  function RoundUp(p: int64, d: int64): int64
    requires d > 0
  {
    TruncDiv(Wrap64(p + (d - 1)), d)
  }

  // ----- wrap-around -----

  lemma WrapShift(x: int, k: int)
    ensures Wrap64(x + k * TWO_64) == Wrap64(x)
  {
    var y := x - MIN_INT64;
    var q, r := y / TWO_64, y % TWO_64;
    assert y + k * TWO_64 == (q + k) * TWO_64 + r;
    SameRemainder(y + k * TWO_64, q + k, r);
  }

  lemma SameRemainder(y: int, q: int, r: int)
    requires y == q * TWO_64 + r && 0 <= r < TWO_64
    ensures y % TWO_64 == r
  {
  }

  lemma WrapIsShift(x: int) returns (k: int)
    ensures Wrap64(x) == x + k * TWO_64
  {
    k := -((x - MIN_INT64) / TWO_64);
  }

  lemma WrapInRange(x: int)
    requires MIN_INT64 <= x <= MAX_INT64
    ensures Wrap64(x) == x
  {
  }

  /** A wrapped factor or summand does not change the wrapped result. */
  lemma WrapMul(x: int, y: int)
    ensures Wrap64(Wrap64(x) * y) == Wrap64(x * y)
  {
    var k := WrapIsShift(x);
    assert Wrap64(x) * y == x * y + (k * y) * TWO_64;
    WrapShift(x * y, k * y);
  }

  lemma WrapAdd(x: int, y: int)
    ensures Wrap64(Wrap64(x) + y) == Wrap64(x + y)
  {
    var k := WrapIsShift(x);
    WrapShift(x + y, k);
  }

  // ----- ceilings -----

  lemma FloorIsCeiling(p: int, d: int)
    requires d > 0 && p >= 0
    ensures IsCeiling((p + (d - 1)) / d, p, d)
  {
    var a := p + (d - 1);
    assert a == a / d * d + a % d;
  }

  lemma MulMono(a: int, b: int, c: int)
    requires a <= b && c >= 0
    ensures a * c <= b * c
  {
  }

  lemma CeilingMono(u: int, p: int, v: int, q: int, d: int)
    requires d > 0 && p <= q && IsCeiling(u, p, d) && IsCeiling(v, q, d)
    ensures u <= v
  {
    if v < u {
      MulMono(v, u - 1, d);
    }
  }

  /** The rounded quotient of a positive product, wrapped or not, is the true ceiling if and
      only if the product plus d - 1 still fits in 64 bits; past that it falls short of the
      product every time. */
  lemma RoundUpExactIff(p: int, d: int64)
    requires p > 0 && d > 0
    ensures IsCeiling(RoundUp(Wrap64(p), d), p, d) <==> p + (d - 1) <= MAX_INT64
    ensures p + (d - 1) > MAX_INT64 ==> RoundUp(Wrap64(p), d) * d < p
  {
    var a := p + (d - 1);
    WrapAdd(p, d - 1);
    if a <= MAX_INT64 {
      FloorIsCeiling(p, d);
      WrapInRange(a);
    } else {
      OverflowFallsShort(a);
      TruncDivBound(Wrap64(a), d);
      if Wrap64(a) < 0 {
        MulMono(TruncDiv(Wrap64(a), d), 0, d);
      }
    }
  }

  /** A sum above MaxInt64 loses at least 2^64 when it wraps. */
  lemma OverflowFallsShort(a: int)
    requires a > MAX_INT64
    ensures Wrap64(a) <= a - TWO_64
  {
    var k := WrapIsShift(a);
  }

  lemma TruncDivBound(x: int, d: int)
    requires d > 0
    ensures x >= 0 ==> 0 <= TruncDiv(x, d) * d <= x
    ensures x < 0 ==> TruncDiv(x, d) <= 0
  {
    QuotientBound(if x >= 0 then x else -x, d);
  }

  lemma QuotientBound(y: nat, d: int)
    requires d > 0
    ensures y / d >= 0 && 0 <= y / d * d <= y
  {
    assert y == y / d * d + y % d;
    if y / d < 0 {
      MulMono(y / d, -1, d);
    }
    MulMono(0, y / d, d);
  }
}
