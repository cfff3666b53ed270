/**
 * Exact decimal money. Amounts and percentages are Dafny reals (exact
 * rationals); a stored amount has two places after the point.
 */
module Money {

  /** `x` is a whole number of cents: a value of a `Numeric(_, 2)` column. */
  predicate OnCentGrid(x: real) {
    (x * 100.0).Floor as real == x * 100.0
  }

  /** `k` cents, as an amount. */
  function Cents(k: int): (r: real)
    ensures OnCentGrid(r) && r * 100.0 == k as real
  {
    k as real / 100.0
  }

  /**
   * Python's `round(d, 2)` on a `Decimal`: the nearest whole cent, a tie going
   * to the even cent (the default ROUND_HALF_EVEN context).
   */
  function Round2(x: real): (r: real)
    ensures OnCentGrid(r)
    ensures x - 0.005 <= r <= x + 0.005
    ensures OnCentGrid(x) ==> r == x
  {
    var y := x * 100.0;
    var f := y.Floor;
    var frac := y - f as real;
    var k := if frac < 0.5 then f
             else if frac > 0.5 then f + 1
             else if f % 2 == 0 then f else f + 1;
    Cents(k)
  }

  /** No whole number of cents is nearer to `x` than `Round2(x)`. */
  lemma Round2Nearest(x: real, k: int)
    ensures Abs(Round2(x) - x) <= Abs(Cents(k) - x)
  {
    var y := x * 100.0;
    var f := y.Floor;
    assert f as real <= y < f as real + 1.0;
    if k <= f - 1 {
      assert Cents(k) <= Cents(f - 1);
    } else if k >= f + 2 {
      assert Cents(k) >= Cents(f + 2);
    }
  }

  /** A value exactly half-way between two cents is rounded to the even one. */
  lemma Round2TiesToEven(x: real)
    requires (x * 100.0 - (x * 100.0).Floor as real) == 0.5
    ensures (Round2(x) * 100.0).Floor % 2 == 0
  {
    var f := (x * 100.0).Floor;
    var k := if f % 2 == 0 then f else f + 1;
    assert Round2(x) == Cents(k);
    assert (Cents(k) * 100.0).Floor == k;
  }

  /** Rounding never reverses the order of two amounts. */
  lemma Round2Monotone(x: real, y: real)
    requires x <= y
    ensures Round2(x) <= Round2(y)
  {
    var fx := (x * 100.0).Floor;
    var fy := (y * 100.0).Floor;
    assert fx <= fy;
    if fx == fy {
      assert x * 100.0 - fx as real <= y * 100.0 - fy as real;
    } else {
      assert Round2(x) <= Cents(fx + 1) <= Cents(fy) <= Round2(y);
    }
  }

  function Abs(x: real): real {
    if x < 0.0 then -x else x
  }

  /** `x` raised to the `n`-th power (`Decimal ** int` for a non-negative exponent). */
  function Pow(x: real, n: nat): real {
    if n == 0 then 1.0 else x * Pow(x, n - 1)
  }

  /** A base above one raised to a positive power stays above one. */
  lemma {:induction false} PowAboveOne(x: real, n: nat)
    requires x > 1.0 && n >= 1
    ensures Pow(x, n) > 1.0
  {
    if n > 1 {
      PowAboveOne(x, n - 1);
      var p := Pow(x, n - 1);
      assert x * p - x == x * (p - 1.0);
      assert x * (p - 1.0) > 0.0;
    }
  }

  /** What a spin box holds after `setValue(x)` with range lo..hi. */
  function Clamp(x: real, lo: real, hi: real): (r: real)
    requires lo <= hi
    ensures lo <= r <= hi
    ensures lo <= x <= hi ==> r == x
    ensures x < lo ==> r == lo
    ensures x > hi ==> r == hi
  {
    if x < lo then lo else if x > hi then hi else x
  }

  function ClampInt(x: int, lo: int, hi: int): (r: int)
    requires lo <= hi
    ensures lo <= r <= hi
    ensures lo <= x <= hi ==> r == x
    ensures x < lo ==> r == lo
    ensures x > hi ==> r == hi
  {
    if x < lo then lo else if x > hi then hi else x
  }
}
