/**
 The chunk count of `SplitFile` (file/chunking.go:22) is computed in float64. Dividing and rounding up
 is shown to agree with integer division for every rounding function that has three properties of
 IEEE 754 binary64 (IEEE 754-2019, sections 4.3.1 and 5.4.1).
 */
module FloatCeiling {
  const TWO53: int := 0x20_0000_0000_0000
  const TWO63: int := 0x8000_0000_0000_0000

  /**
   On numbers up to 2^64, far from overflow, rounding is monotone, exact on integers up to 2^53, and within relative
   error 2^-53 down to 2^-65, far from underflow.
   */
  ghost predicate IsRounding(rnd: real -> real) {
    && (forall x, y :: 0.0 <= x <= y <= 2.0 * TWO63 as real ==> rnd(x) <= rnd(y))
    && (forall n: int :: 0 <= n <= TWO53 ==> ExactAt(rnd, n))
    && (forall x: real :: 1.0 <= x * (TWO63 as real) * 4.0 && x <= 2.0 * TWO63 as real ==>
          WithinRelativeError(x, rnd(x)))
  }

  ghost predicate ExactAt(rnd: real -> real, n: int) {
    rnd(n as real) == n as real
  }

  ghost predicate WithinRelativeError(x: real, y: real) {
    -x <= (y - x) * (TWO53 as real) <= x
  }

  /** `math.Ceil` */
  function Ceil(x: real): int {
    -((-x).Floor)
  }

  /** `int(math.Ceil(float64(n) / float64(d)))` */
  function FloatCeilDiv(rnd: real -> real, n: int, d: int): int
    requires rnd(d as real) != 0.0
  {
    Ceil(rnd(rnd(n as real) / rnd(d as real)))
  }

  function CeilDiv(n: nat, d: nat): (k: nat)
    requires d > 0
    ensures (k - 1) * d < n <= k * d
  {
    assert n == (n / d) * d + n % d;
    if n % d == 0 then n / d else n / d + 1
  }

  lemma CeilIsUnique(x: real, k: int)
    requires (k - 1) as real < x <= k as real
    ensures Ceil(x) == k
  {
  }

  lemma RealCancel(a: real, b: real, c: real)
    requires c > 0.0
    ensures a * c <= b * c <==> a <= b
  {
  }

  lemma IntCancel(a: int, b: int, c: int)
    requires c > 0
    ensures a * c <= b * c <==> a <= b
  {
  }

  lemma DivisionBounds(n: int, d: int, k: int, x: real)
    requires 0 < d && (k - 1) * d < n <= k * d
    requires x * d as real == n as real
    ensures (k - 1) as real < x <= k as real
    ensures (x - (k - 1) as real) * d as real >= 1.0
  {
    var dr, m := d as real, (k - 1) as real;
    assert ((k - 1) * d) as real == m * dr;
    assert (k * d) as real == k as real * dr;
    assert n >= (k - 1) * d + 1;
    assert (x - m) * dr == n as real - ((k - 1) * d) as real;
    assert m * dr < x * dr <= k as real * dr;
    RealCancel(x, k as real, dr);
    RealCancel(x, m, dr);
    assert x <= k as real;
    assert x > m;
  }

  /** The rounded quotient stays strictly above the integer below it: the gap 1/d beats the relative error. */
  lemma RoundedStaysAbove(n: int, d: int, m: real, x: real, y: real)
    requires n < TWO53 && 0 < d
    requires x * d as real == n as real
    requires (x - m) * d as real >= 1.0
    requires WithinRelativeError(x, y)
    ensures y > m
  {
    var dr, t := d as real, TWO53 as real;
    assert ((x - m) * t) * dr == ((x - m) * dr) * t;
    RealCancel(1.0, (x - m) * dr, t);
    assert x * dr < ((x - m) * t) * dr;
    RealCancel((x - m) * t, x, dr);
    assert x < (x - m) * t;
    assert (y - x) * t + (x - m) * t == (y - m) * t;
    RealCancel(y, m, t);
  }

  /** A rounding of n/d that is at most ceil(n/d) and within the relative error rounds up to ceil(n/d). */
  lemma RoundedQuotient(n: int, d: int, k: int, x: real, y: real)
    requires n < TWO53 && 0 < d && (k - 1) * d < n <= k * d
    requires x * d as real == n as real
    requires y <= k as real && WithinRelativeError(x, y)
    ensures Ceil(y) == k
  {
    DivisionBounds(n, d, k, x);
    RoundedStaysAbove(n, d, (k - 1) as real, x, y);
    CeilIsUnique(y, k);
  }

  lemma QuotientBounds(n: int, d: int, k: int)
    requires 0 < n && 0 < d && (k - 1) * d < n <= k * d
    ensures 1 <= k <= n
  {
    IntCancel(k, 0, d);
    if k > n {
      IntCancel(n, k - 1, d);
      IntCancel(1, d, n);
    }
  }

  lemma QuotientIsNormal(n: int, dr: real, x: real, bound: real)
    requires 0 < n && 0.0 < dr <= bound && x * dr == n as real && x > 0.0
    ensures 1.0 <= x * bound
  {
    assert x * bound == x * dr + x * (bound - dr);
    assert x * (bound - dr) >= 0.0;
  }

  lemma SmallDivisorQuotient(n: int, d: int, k: int, x: real)
    requires 0 < n < TWO53 && 0 < d < TWO53 && (k - 1) * d < n <= k * d
    requires x == n as real / d as real
    ensures 1 <= k <= n && x <= k as real
    ensures x * d as real == n as real
    ensures 1.0 <= x * (TWO63 as real) * 4.0
  {
    QuotientBounds(n, d, k);
    DivisionBounds(n, d, k, x);
    QuotientIsNormal(n, d as real, x, TWO53 as real);
  }

  /** Below 2^53 the divisor is represented exactly. */
  lemma SmallDivisor(rnd: real -> real, n: int, d: int)
    requires IsRounding(rnd)
    requires 0 < n < TWO53 && 0 < d < TWO53
    ensures rnd(d as real) != 0.0
    ensures FloatCeilDiv(rnd, n, d) == CeilDiv(n, d)
  {
    var k, x := CeilDiv(n, d), n as real / d as real;
    SmallDivisorQuotient(n, d, k, x);
    assert ExactAt(rnd, n) && ExactAt(rnd, d) && ExactAt(rnd, k);
    assert rnd(x) <= rnd(k as real);
    RoundedQuotient(n, d, k, x, rnd(x));
  }

  lemma RoundedLargeDivisor(d: int, dr: real)
    requires TWO53 <= d < TWO63 && WithinRelativeError(d as real, dr)
    ensures dr <= 2.0 * TWO63 as real
  {
    RealCancel(dr - d as real, 1024.0, TWO53 as real);
  }

  lemma SmallQuotient(n: int, dr: real, x: real)
    requires 0 < n < TWO53 && TWO53 as real <= dr <= 2.0 * TWO63 as real && x * dr == n as real
    ensures 0.0 < x <= 1.0 && 1.0 <= x * (TWO63 as real) * 4.0
  {
    assert 0.0 * dr < x * dr <= 1.0 * dr;
    RealCancel(x, 1.0, dr);
    RealCancel(x, 0.0, dr);
    RealCancel(dr, 2.0 * TWO63 as real, x);
    assert x * (2.0 * TWO63 as real) >= x * dr >= 1.0;
  }

  /** Above it the quotient lies in (0, 1] whatever the rounding did to the divisor. */
  lemma LargeDivisor(rnd: real -> real, n: int, d: int)
    requires IsRounding(rnd)
    requires 0 < n < TWO53 <= d < TWO63
    ensures rnd(d as real) != 0.0
    ensures FloatCeilDiv(rnd, n, d) == 1
  {
    var dr := rnd(d as real);
    assert ExactAt(rnd, TWO53) && ExactAt(rnd, n) && ExactAt(rnd, 1);
    assert rnd(TWO53 as real) <= dr;
    assert WithinRelativeError(d as real, dr);
    RoundedLargeDivisor(d, dr);
    var x := n as real / dr;
    SmallQuotient(n, dr, x);
    assert rnd(x) <= rnd(1 as real);
    assert WithinRelativeError(x, rnd(x));
    assert rnd(x) > 0.0 by {
      RealCancel(0.0, rnd(x), TWO53 as real);
      RealCancel(1.0, TWO53 as real, x);
    }
    CeilIsUnique(rnd(x), 1);
  }

  lemma CeilDivIsOne(n: int, d: int)
    requires 0 < n <= d
    ensures CeilDiv(n, d) == 1
  {
    var k := CeilDiv(n, d);
    IntCancel(k, 0, d);
    IntCancel(1, k - 1, d);
  }

  /** For every slice length below 2^53 and every positive 64-bit chunk size, the float count is the integer count. */
  lemma FloatCeilingIsExact(rnd: real -> real, n: nat, d: int)
    requires IsRounding(rnd)
    requires n < TWO53 && 0 < d < TWO63
    ensures rnd(d as real) != 0.0
    ensures FloatCeilDiv(rnd, n, d) == CeilDiv(n, d)
  {
    if n == 0 {
      assert ExactAt(rnd, 0) && ExactAt(rnd, 1);
      assert rnd(1 as real) <= rnd(d as real);
      assert 0.0 / rnd(d as real) == 0.0;
      CeilIsUnique(0.0, 0);
    } else if d < TWO53 {
      SmallDivisor(rnd, n, d);
    } else {
      LargeDivisor(rnd, n, d);
      CeilDivIsOne(n, d);
    }
  }

  /** The bound on the length cannot be dropped: rounding 2^53 + 1 down to even, as binary64 does, loses a chunk. */
  lemma LengthBoundIsNeeded(rnd: real -> real)
    requires IsRounding(rnd) && rnd((TWO53 + 1) as real) == TWO53 as real
    ensures rnd(1 as real) != 0.0
    ensures FloatCeilDiv(rnd, TWO53 + 1, 1) == TWO53 == CeilDiv(TWO53 + 1, 1) - 1
  {
    assert ExactAt(rnd, 1) && ExactAt(rnd, TWO53);
    CeilIsUnique(TWO53 as real, TWO53);
  }

  /** The slice bounds `i*chunkSize` and `start+chunkSize` fit a signed 64-bit integer on every iteration. */
  lemma SliceBoundsFit(n: nat, d: int, i: nat)
    requires n < TWO53 && 0 < d < TWO63 && i < CeilDiv(n, d)
    ensures 0 <= i * d < n && i * d + d < TWO63
  {
    IntCancel(i, CeilDiv(n, d) - 1, d);
    if d >= TWO53 {
      CeilDivIsOne(n, d);
    }
  }
}
