/**
  The two pieces of Go numerics the carpet calculator leans on, stated over
  exact reals: the `int(x)` conversion (cut toward zero), the calculator's
  own two-decimal `truncate`, and `math.Mod`.
 */
module GoMath {

  datatype Option<+T> = None | Some(value: T)

  function Abs(x: real): (r: real)
    ensures r >= 0.0 && (r == x || r == -x)
  {
    if x < 0.0 then -x else x
  }

  /** `x` is a whole number of hundredths of a millimetre. */
  predicate IsHundredth(x: real) {
    (x * 100.0).Floor as real == x * 100.0
  }

  /** `t` is a whole number. */
  predicate IsWhole(t: real) {
    t.Floor as real == t
  }

  /** `x` is a whole (possibly negative or zero) number of steps of size `w`. */
  predicate IsMultiple(x: real, w: real) {
    w != 0.0 && IsWhole(x / w)
  }

  /** Go's `int(x)` for a float: the integer part, cut toward zero. */
  function TruncToInt(x: real): (n: int)
    ensures x >= 0.0 ==> n as real <= x < n as real + 1.0
    ensures x < 0.0 ==> n as real - 1.0 < x <= n as real
  {
    if x >= 0.0 then x.Floor else -((-x).Floor)
  }

  /** `truncate` at main.go:173-175: keep two decimals, cutting toward zero. */
  function Truncate(x: real): (r: real)
    ensures IsHundredth(r)
    ensures Abs(r) <= Abs(x) && Abs(x - r) < 0.01
    ensures (x >= 0.0 ==> r >= 0.0) && (x <= 0.0 ==> r <= 0.0)
  {
    TruncToInt(x * 100.0) as real / 100.0
  }

  /** Values already on the hundredth grid pass through `truncate` unchanged. */
  lemma TruncateFixesHundredths(x: real)
    requires IsHundredth(x)
    ensures Truncate(x) == x
  {
    var n := (x * 100.0).Floor;
    assert x * 100.0 == n as real;
    assert TruncToInt(x * 100.0) == n;
  }

  /** `truncate` is idempotent. */
  lemma TruncateIdempotent(x: real)
    ensures Truncate(Truncate(x)) == Truncate(x)
  {
    TruncateFixesHundredths(Truncate(x));
  }

  /** `truncate` keeps the order of its arguments. */
  lemma TruncateMonotone(x: real, y: real)
    requires x <= y
    ensures Truncate(x) <= Truncate(y)
  {
    var a, b := x * 100.0, y * 100.0;
    assert a <= b;
    if x >= 0.0 {
      assert a.Floor <= b.Floor;
    } else if y < 0.0 {
      assert (-b).Floor <= (-a).Floor;
    }
  }

  /**
    Of all two-decimal values lying between zero and `x`, `truncate` picks
    the one farthest from zero: it cuts toward zero and loses less than one
    hundredth.
   */
  lemma TruncateIsNearestTowardZero(x: real, h: real)
    requires IsHundredth(h)
    requires (0.0 <= h <= x) || (x <= h <= 0.0)
    ensures Abs(h) <= Abs(Truncate(x))
  {
    var k := (h * 100.0).Floor;
    assert h * 100.0 == k as real;
    if x >= 0.0 {
      assert k <= (x * 100.0).Floor;
    } else {
      assert -k <= (-(x * 100.0)).Floor;
    }
  }

  /**
    Go's `math.Mod(x, y)`: the remainder `x - |y| * int(x / |y|)`, which
    has the sign of `x` and magnitude below `|y|`. `None` stands for the
    NaN that `math.Mod` returns for a zero divisor.
   */
  function Mod(x: real, y: real): (r: Option<real>)
    ensures r.None? <==> y == 0.0
    ensures r.Some? ==> Abs(r.value) < Abs(y) && Abs(r.value) <= Abs(x)
    ensures r.Some? ==> IsMultiple(x - r.value, y)
    ensures r.Some? ==> (x >= 0.0 ==> r.value >= 0.0) && (x <= 0.0 ==> r.value <= 0.0)
    ensures r.Some? ==> (r.value == 0.0 <==> IsMultiple(x, y))
  {
    if y == 0.0 then None
    else
      ModFacts(x, y);
      Some(Remainder(x, y))
  }

  /** `|y| * int(x / |y|)`: the whole number of `|y|`s that `math.Mod` takes away from `x`. */
  function WholePart(x: real, y: real): real
    requires y != 0.0
  {
    Abs(y) * TruncToInt(x / Abs(y)) as real
  }

  /** `x - |y| * int(x / |y|)`, the value `math.Mod` computes for a non-zero `y`. */
  function Remainder(x: real, y: real): real
    requires y != 0.0
  {
    x - WholePart(x, y)
  }

  lemma ModFacts(x: real, y: real)
    requires y != 0.0
    ensures var r := Remainder(x, y);
      && Abs(r) < Abs(y) && Abs(r) <= Abs(x)
      && (x >= 0.0 ==> r >= 0.0) && (x <= 0.0 ==> r <= 0.0)
      && IsMultiple(x - r, y)
      && (r == 0.0 <==> IsMultiple(x, y))
  {
    WholePartBounds(x, y);
    WholePartIsMultiple(x, y);
    WholePartZero(x, y);
    RemainderFacts(x, y, WholePart(x, y));
  }

  lemma WholePartBounds(x: real, y: real)
    requires y != 0.0
    ensures var m, a := WholePart(x, y), Abs(y);
      && (x >= 0.0 ==> 0.0 <= m <= x < m + a)
      && (x < 0.0 ==> m - a < x <= m <= 0.0)
  {
    var a := Abs(y);
    var q := TruncToInt(x / a);
    QuotientBounds(x, a, q);
    SameSignProduct(a, q as real);
  }

  lemma WholePartIsMultiple(x: real, y: real)
    requires y != 0.0
    ensures IsMultiple(WholePart(x, y), Abs(y)) && IsMultiple(WholePart(x, y), -Abs(y))
  {
    var a, k := Abs(y), TruncToInt(x / Abs(y)) as real;
    assert IsWhole(k);
    ProductIsMultiple(a, k);
    assert WholePart(x, y) == a * k;
  }

  lemma WholePartZero(x: real, y: real)
    requires y != 0.0
    ensures x - WholePart(x, y) == 0.0 <==> IsMultiple(x, y)
  {
    ModZero(x, y, TruncToInt(x / Abs(y)));
  }

  /** A multiple `m` of `|y|` within `|y|` of `x`, on its side of zero, leaves a remainder. */
  lemma RemainderFacts(x: real, y: real, m: real)
    requires y != 0.0 && IsMultiple(m, Abs(y)) && IsMultiple(m, -Abs(y))
    requires x >= 0.0 ==> 0.0 <= m <= x < m + Abs(y)
    requires x < 0.0 ==> m - Abs(y) < x <= m <= 0.0
    ensures var r := x - m;
      && Abs(r) < Abs(y) && Abs(r) <= Abs(x)
      && (x >= 0.0 ==> r >= 0.0) && (x <= 0.0 ==> r <= 0.0)
      && IsMultiple(x - r, y)
  {
    assert x - (x - m) == m;
  }

  lemma ProductIsMultiple(a: real, k: real)
    requires a > 0.0 && IsWhole(k)
    ensures IsMultiple(a * k, a) && IsMultiple(a * k, -a)
  {
    ProductQuotient(a, k);
    WholeNegation(k);
  }

  lemma SameSignProduct(a: real, k: real)
    requires a > 0.0
    ensures (k >= 0.0 ==> a * k >= 0.0) && (k <= 0.0 ==> a * k <= 0.0)
  {
  }

  lemma ProductQuotient(a: real, k: real)
    requires a != 0.0
    ensures (a * k) / a == k && (a * k) / (-a) == -k
  {
  }

  /** The remainder vanishes exactly on multiples of the divisor. */
  lemma ModZero(x: real, y: real, q: int)
    requires y != 0.0 && q == TruncToInt(x / Abs(y))
    ensures x - Abs(y) * q as real == 0.0 <==> IsMultiple(x, y)
  {
    if x - Abs(y) * q as real == 0.0 {
      ZeroRemainderIsMultiple(x, y, q as real);
    }
    if IsMultiple(x, y) {
      MultipleHasZeroRemainder(x, y, q);
    }
  }

  lemma ZeroRemainderIsMultiple(x: real, y: real, k: real)
    requires y != 0.0 && IsWhole(k) && x == Abs(y) * k
    ensures IsMultiple(x, y)
  {
    ProductQuotient(Abs(y), k);
    QuotientSign(x, y);
    WholeNegation(k);
  }

  lemma MultipleHasZeroRemainder(x: real, y: real, q: int)
    requires IsMultiple(x, y) && q == TruncToInt(x / Abs(y))
    ensures x - Abs(y) * q as real == 0.0
  {
    var a := Abs(y);
    QuotientSign(x, y);
    WholeNegation(x / y);
    TruncOfWhole(x / a);
    ScaleBack(x, a);
  }

  /** Dividing by `|y|` instead of `y` at most flips the sign. */
  lemma QuotientSign(x: real, y: real)
    requires y != 0.0
    ensures x / Abs(y) == x / y || x / Abs(y) == -(x / y)
  {
  }

  lemma WholeNegation(t: real)
    ensures IsWhole(t) <==> IsWhole(-t)
  {
    if IsWhole(t) {
      assert (-t).Floor == -(t.Floor);
    }
    if IsWhole(-t) {
      assert t.Floor == -((-t).Floor);
    }
  }

  lemma TruncOfWhole(t: real)
    requires IsWhole(t)
    ensures TruncToInt(t) as real == t
  {
    if t < 0.0 {
      assert (-t).Floor == -(t.Floor);
    }
  }

  /** `a * int(x / a)` lies between zero and `x`, less than `a` away from `x`. */
  lemma QuotientBounds(x: real, a: real, q: int)
    requires a > 0.0 && q == TruncToInt(x / a)
    ensures x >= 0.0 ==> a * q as real <= x < a * q as real + a && q >= 0
    ensures x < 0.0 ==> a * q as real - a < x <= a * q as real && q <= 0
  {
    ScaleBack(x, a);
    SignOfQuotient(x, a);
    if x >= 0.0 {
      ScaledFloor(x, a, x / a, q as real);
    } else {
      ScaledCeiling(x, a, x / a, q as real);
    }
  }

  lemma ScaleBack(x: real, a: real)
    requires a > 0.0
    ensures a * (x / a) == x
  {
  }

  lemma SignOfQuotient(x: real, a: real)
    requires a > 0.0
    ensures (x >= 0.0 ==> x / a >= 0.0) && (x < 0.0 ==> x / a < 0.0)
  {
  }

  lemma ScaledFloor(x: real, a: real, t: real, q: real)
    requires a > 0.0 && x == a * t && q <= t < q + 1.0
    ensures a * q <= x < a * q + a
  {
    var f := t - q;
    ScaleFraction(a, f);
    var m, p := a * f, a * q;
    assert 0.0 <= m < a;
    assert m == x - p;
    assert p <= x < p + a;
  }

  lemma ScaledCeiling(x: real, a: real, t: real, q: real)
    requires a > 0.0 && x == a * t && q - 1.0 < t <= q
    ensures a * q - a < x <= a * q
  {
    var f := q - t;
    ScaleFraction(a, f);
    var m, p := a * f, a * q;
    assert 0.0 <= m < a;
    assert m == p - x;
    assert p - a < x <= p;
  }

  lemma ScaleAtLeastOne(a: real, f: real)
    requires a > 0.0 && f >= 1.0
    ensures a * f >= a
  {
  }

  /** A fraction of a positive `a` stays below `a`. */
  lemma ScaleFraction(a: real, f: real)
    requires a > 0.0 && 0.0 <= f < 1.0
    ensures 0.0 <= a * f < a
  {
  }

  /** A multiple of `w` is `w` times an integer. */
  lemma MultipleWitness(x: real, w: real) returns (k: int)
    requires IsMultiple(x, w)
    ensures x == w * k as real && k == (x / w).Floor
  {
    k := (x / w).Floor;
  }

  /** A multiple of `w` is a multiple of `|w|`. */
  lemma MultipleOfAbs(x: real, w: real)
    requires IsMultiple(x, w)
    ensures IsMultiple(x, Abs(w))
  {
    QuotientSign(x, w);
    WholeNegation(x / w);
    assert Abs(Abs(w)) == Abs(w);
  }

  /** Two multiples of `a > 0` less than `a` apart upward are ordered. */
  lemma MultiplesBelow(e: real, f: real, a: real)
    requires a > 0.0 && IsMultiple(e, a) && IsMultiple(f, a) && e < f + a
    ensures e <= f
  {
    var k := MultipleWitness(e, a);
    var q := MultipleWitness(f, a);
    if k > q {
      var kr, qr := k as real, q as real;
      ScaleAtLeastOne(a, kr - qr);
    }
  }
}
