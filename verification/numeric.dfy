/** The C/C++ numeric conversions the postprocessor relies on, over exact integers and reals. */
module Numeric {

  function Abs(r: real): (a: real)
    ensures a >= 0.0 && (a == r || a == -r)
  {
    if r < 0.0 then -r else r
  }

  function Min(a: int, b: int): (m: int)
    ensures m <= a && m <= b && (m == a || m == b)
  {
    if a < b then a else b
  }

  function Max(a: int, b: int): (m: int)
    ensures m >= a && m >= b && (m == a || m == b)
  {
    if a > b then a else b
  }

  /** `std::max(a, b)` on floats: `b` when `a < b`, otherwise `a`. */
  function MaxF(a: real, b: real): (m: real)
    ensures m >= a && m >= b && (m == a || m == b)
  {
    if a < b then b else a
  }

  /** `static_cast<int>` of a float: truncation toward zero. */
  function Trunc(r: real): (n: int)
    ensures r >= 0.0 ==> n as real <= r < n as real + 1.0
    ensures r <= 0.0 ==> n as real - 1.0 < r <= n as real
  {
    if r >= 0.0 then r.Floor else -((-r).Floor)
  }

  /** Truncation never reverses the order of two values. */
  lemma TruncMonotone(a: real, b: real)
    requires a <= b
    ensures Trunc(a) <= Trunc(b)
  {
  }

  /** `roundf`: the nearest integer, halfway cases rounded away from zero. */
  function RoundHalfAway(r: real): (n: int)
    ensures -0.5 <= r - n as real <= 0.5
    ensures r - n as real == 0.5 ==> r < 0.0
    ensures r - n as real == -0.5 ==> r > 0.0
  {
    if r >= 0.0 then (r + 0.5).Floor else -((-r + 0.5).Floor)
  }

  /** Rounding never reverses the order of two values. */
  lemma RoundHalfAwayMonotone(a: real, b: real)
    requires a <= b
    ensures RoundHalfAway(a) <= RoundHalfAway(b)
  {
    if a >= 0.0 {
      assert (a + 0.5).Floor <= (b + 0.5).Floor;
    } else if b < 0.0 {
      assert (-b + 0.5).Floor <= (-a + 0.5).Floor;
    } else {
      assert RoundHalfAway(a) <= 0 <= RoundHalfAway(b);
    }
  }

  /** Rounding an integral value gives that value back. */
  lemma RoundHalfAwayIntegral(k: int)
    ensures RoundHalfAway(k as real) == k
  {
    var n := RoundHalfAway(k as real);
    assert -1 < k - n < 1;
  }

  /** Clamping never reverses the order of two values. */
  lemma ClampMonotone(a: int, b: int, lo: int, hi: int)
    requires lo <= hi && a <= b
    ensures Clamp(a, lo, hi) <= Clamp(b, lo, hi)
  {
  }

  /** `clampf(v, lo, hi)` on an integral value: `v` pulled into `[lo, hi]`. */
  function Clamp(v: int, lo: int, hi: int): (c: int)
    requires lo <= hi
    ensures lo <= c <= hi
    ensures lo <= v <= hi ==> c == v
    ensures v < lo ==> c == lo
    ensures v > hi ==> c == hi
  {
    if v < lo then lo else if v > hi then hi else v
  }

  /** `static_cast<int>(sqrt(d))` for a non-negative integer `d`: the integer square root. */
  function ISqrt(d: nat): (r: nat)
    ensures r * r <= d < (r + 1) * (r + 1)
  {
    if d == 0 then 0
    else
      var s := ISqrt(d - 1);
      if (s + 1) * (s + 1) <= d then
        assert d < (s + 2) * (s + 2) by {
          assert d <= (s + 1) * (s + 1);
          assert (s + 1) * (s + 1) < (s + 2) * (s + 2);
        }
        s + 1
      else s
  }

  /** The truncated root is at most `k` exactly when `d` is below `(k + 1)` squared. */
  lemma ISqrtAtMost(d: nat, k: nat)
    ensures ISqrt(d) <= k <==> d < (k + 1) * (k + 1)
  {
    var r := ISqrt(d);
    if r <= k {
      assert (r + 1) * (r + 1) <= (k + 1) * (k + 1) by { SquareMonotone(r + 1, k + 1); }
    } else {
      assert (k + 1) * (k + 1) <= r * r by { SquareMonotone(k + 1, r); }
    }
  }

  lemma SquareMonotone(a: nat, b: nat)
    requires a <= b
    ensures a * a <= b * b
  {
    assert a * a <= a * b <= b * b;
  }
}
