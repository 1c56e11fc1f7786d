/** Numeric helpers shared by every variant of the meter: Python's `min`,
    `max`, `int()` and `round()` on floats, written out over Dafny's `real`. */
module Prelude {

  datatype Option<T> = None | Some(value: T)

  function Min(a: real, b: real): (r: real)
    ensures r <= a && r <= b
    ensures r == a || r == b
  {
    if a <= b then a else b
  }

  function Max(a: real, b: real): (r: real)
    ensures a <= r && b <= r
    ensures r == a || r == b
  {
    if a >= b then a else b
  }

  /** `max(lo, min(hi, x))`: the clamp every variant applies to its
      normalised reading and to the gradient fraction. */
  function Clamp(x: real, lo: real, hi: real): (r: real)
    ensures lo <= hi ==> lo <= r <= hi
    ensures lo <= x <= hi ==> r == x
    ensures x < lo ==> r == lo
    ensures lo <= hi && hi < x ==> r == hi
  {
    Max(lo, Min(hi, x))
  }

  /** Python's `int(x)` on a float: truncation toward zero. */
  function Trunc(x: real): (r: int)
    ensures 0.0 <= x ==> 0 <= r && r as real <= x < r as real + 1.0
    ensures x <= 0.0 ==> r <= 0 && r as real - 1.0 < x <= r as real
  {
    if x >= 0.0 then x.Floor else -((-x).Floor)
  }

  lemma TruncMonotone(a: real, b: real)
    requires a <= b
    ensures Trunc(a) <= Trunc(b)
  {
  }

  /** For a non-negative x and a natural bound k: `int(x) >= k` exactly when `x >= k`. */
  lemma TruncAtLeast(x: real, k: int)
    requires 0.0 <= x
    ensures Trunc(x) >= k <==> x >= k as real
  {
  }

  /** Python 3's `round(x)`: the nearest integer, ties to the even neighbour. */
  function Round(x: real): (r: int)
    ensures -0.5 <= r as real - x <= 0.5
    ensures (r as real - x == 0.5 || x - r as real == 0.5) ==> r % 2 == 0
  {
    var f := x.Floor;
    var d := x - f as real;
    if d < 0.5 then f
    else if d > 0.5 then f + 1
    else if f % 2 == 0 then f
    else f + 1
  }

  /** The two properties in `Round`'s contract pin its result down: any
      integer within one half of x, even on a tie, is `Round(x)`. */
  lemma RoundUnique(x: real, k: int)
    requires -0.5 <= k as real - x <= 0.5
    requires (k as real - x == 0.5 || x - k as real == 0.5) ==> k % 2 == 0
    ensures k == Round(x)
  {
  }

  lemma RoundMonotone(a: real, b: real)
    requires a <= b
    ensures Round(a) <= Round(b)
  {
  }

  function Pow(base: real, k: nat): (r: real)
    ensures 0.0 <= base ==> 0.0 <= r
    ensures 0.0 <= base <= 1.0 ==> r <= 1.0
  {
    if k == 0 then 1.0
    else
      var p := Pow(base, k - 1);
      PowStep(base, p);
      base * p
  }

  lemma PowUnfold(base: real, k: nat)
    requires 0 < k
    ensures Pow(base, k) == base * Pow(base, k - 1)
  {
  }

  lemma PowStep(base: real, p: real)
    ensures 0.0 <= base && 0.0 <= p ==> 0.0 <= base * p
    ensures 0.0 <= base <= 1.0 && 0.0 <= p <= 1.0 ==> base * p <= 1.0
  {
    if 0.0 <= base <= 1.0 && 0.0 <= p <= 1.0 {
      ScaleBetween(base, p);
    }
  }

  lemma MulNonneg(x: real, y: real)
    requires 0.0 <= x && 0.0 <= y
    ensures 0.0 <= x * y
  {
  }

  /** A fraction a of d lies between 0 and d. */
  lemma ScaleBetween(a: real, d: real)
    requires 0.0 <= a <= 1.0
    ensures 0.0 <= d ==> 0.0 <= a * d <= d
    ensures d <= 0.0 ==> d <= a * d <= 0.0
  {
    var b := 1.0 - a;
    assert d - a * d == b * d;
    if d >= 0.0 {
      MulNonneg(a, d);
      MulNonneg(b, d);
    } else {
      MulNonneg(a, -d);
      MulNonneg(b, -d);
      assert a * (-d) == -(a * d);
      assert b * (-d) == -(b * d);
    }
  }

  /** A proper fraction of a positive d lies strictly between 0 and d. */
  lemma ScaleStrict(a: real, d: real)
    requires 0.0 < a < 1.0 && 0.0 < d
    ensures 0.0 < a * d < d
  {
    var b := 1.0 - a;
    assert d - a * d == b * d;
    assert 0.0 < a * d;
    assert 0.0 < b * d;
  }

  lemma DivFacts(a: real, d: real)
    requires 0.0 < d
    ensures a / d <= 0.0 <==> a <= 0.0
    ensures 1.0 <= a / d <==> d <= a
    ensures a / d * d == a
  {
    var q := a / d;
    assert q * d == a;
    if q > 0.0 { assert q * d > 0.0; }
    if q < 0.0 { assert q * d < 0.0; }
    assert (q - 1.0) * d == a - d;
    if q > 1.0 { assert (q - 1.0) * d > 0.0; }
    if q < 1.0 { assert (q - 1.0) * d < 0.0; }
  }

  /** Dividing by a negative d flips the signs of `DivFacts`. */
  lemma DivNegFacts(a: real, d: real)
    requires d < 0.0
    ensures a / d <= 0.0 <==> 0.0 <= a
    ensures 1.0 <= a / d <==> a <= d
    ensures a / d * d == a
  {
    DivFacts(-a, -d);
    assert a / d == (-a) / (-d);
  }

  lemma DivMonotone(a: real, b: real, d: real)
    requires 0.0 < d && a <= b
    ensures a / d <= b / d
  {
    DivFacts(b - a, d);
    assert b / d - a / d == (b - a) / d;
  }

  /** The product `x * factor`, with the facts about scaling by a factor in
      [0, 1] stated once so that callers reason about the product through
      this contract alone. */
  function Scale(x: real, factor: real): (y: real)
    ensures 0.0 <= factor && 0.0 <= x ==> 0.0 <= y
    ensures 0.0 <= factor <= 1.0 && 0.0 <= x ==> y <= x
    ensures 0.0 <= factor <= 1.0 && x <= 0.0 ==> x <= y <= 0.0
    ensures 0.0 < factor < 1.0 && 0.0 < x ==> 0.0 < y < x
    ensures factor == 1.0 ==> y == x
    ensures factor == 0.0 || x == 0.0 ==> y == 0.0
  {
    ScaleFacts(x, factor);
    x * factor
  }

  lemma ScaleFacts(x: real, factor: real)
    ensures 0.0 <= factor && 0.0 <= x ==> 0.0 <= x * factor
    ensures 0.0 <= factor <= 1.0 && 0.0 <= x ==> x * factor <= x
    ensures 0.0 <= factor <= 1.0 && x <= 0.0 ==> x <= x * factor <= 0.0
    ensures 0.0 < factor < 1.0 && 0.0 < x ==> 0.0 < x * factor < x
  {
    if 0.0 <= factor <= 1.0 {
      ScaleBetween(factor, x);
      assert factor * x == x * factor;
    }
    if 0.0 < factor < 1.0 && 0.0 < x {
      ScaleStrict(factor, x);
      assert factor * x == x * factor;
    }
    if 0.0 <= factor && 0.0 <= x {
      MulNonneg(x, factor);
    }
  }

  /** A non-negative x scaled by a factor of at least 1 does not shrink;
      by a factor of at most 1 it does not grow. */
  lemma ScaleAtLeast(x: real, factor: real)
    requires 0.0 <= x
    ensures 1.0 <= factor ==> x <= Scale(x, factor)
    ensures factor <= 1.0 ==> Scale(x, factor) <= x
  {
    assert x * factor - x == x * (factor - 1.0);
    if 1.0 <= factor {
      MulNonneg(x, factor - 1.0);
    } else {
      MulNonneg(x, 1.0 - factor);
      assert x * (1.0 - factor) == -(x * (factor - 1.0));
    }
  }

  /** What a factor leaves of x is x scaled by the complementary factor. */
  lemma ScaleComplement(x: real, factor: real)
    ensures x - Scale(x, factor) == Scale(x, 1.0 - factor)
  {
    assert x * (1.0 - factor) == x - x * factor;
  }

  /** Scaling twice is scaling once by the product of the factors. */
  lemma ScaleCompose(x: real, a: real, b: real)
    ensures Scale(Scale(x, a), b) == Scale(x, a * b)
  {
    assert (x * a) * b == x * (a * b);
  }
}
