/**
  Python's `round(x, 1)` and `int(x)` on times. A time is modelled as the exact
  real value of the Python float; `round(x, 1)` returns a whole number of
  tenths of a second, rounding half to even as CPython does on the exact value.
*/
module PyNumbers {

  /** `d` tenths of a second, as seconds. */
  function Tenths(d: int): real {
    d as real / 10.0
  }

  /** `round(x, 1)`, as a count of tenths: the nearest whole number of tenths, ties to even. */
  function Round1(x: real): (d: int)
    ensures x * 10.0 - 0.5 <= d as real <= x * 10.0 + 0.5
    ensures d as real == x * 10.0 - 0.5 || d as real == x * 10.0 + 0.5 ==> d % 2 == 0
  {
    var y := x * 10.0;
    var f := y.Floor;
    var frac := y - f as real;
    if frac < 0.5 then f
    else if frac > 0.5 then f + 1
    else if f % 2 == 0 then f
    else f + 1
  }

  /** `round(x, 1)` as a time. */
  function Rounded(x: real): real {
    Tenths(Round1(x))
  }

  /** Rounding never reverses the order of two times. */
  lemma Round1Monotone(x: real, y: real)
    requires x <= y
    ensures Round1(x) <= Round1(y)
  {
    var a, b := Round1(x), Round1(y);
    if a > b {
      assert a == b + 1;
      assert x == y;
    }
  }

  /** `int(x)`: `x` truncated toward zero. */
  function Trunc(x: real): int {
    if x >= 0.0 then x.Floor else -((-x).Floor)
  }

  /** `int(x)` is the whole number next to `x` on the side of zero. */
  lemma TruncTowardZero(x: real)
    ensures 0.0 <= x ==> Trunc(x) as real <= x < Trunc(x) as real + 1.0
    ensures x < 0.0 ==> Trunc(x) as real - 1.0 < x <= Trunc(x) as real
  {
  }

  /** `x * n` for a whole number `n`, as `n` additions of `x`. */
  function Times(x: real, n: int): real
    decreases if n >= 0 then n else -n
  {
    if n == 0 then 0.0
    else if n > 0 then Times(x, n - 1) + x
    else Times(x, n + 1) - x
  }

  lemma {:induction false} TimesIsProduct(x: real, n: int)
    ensures Times(x, n) == x * n as real
    decreases if n >= 0 then n else -n
  {
    if n > 0 {
      TimesIsProduct(x, n - 1);
      assert x * (n - 1) as real + x == x * n as real;
    } else if n < 0 {
      TimesIsProduct(x, n + 1);
      assert x * (n + 1) as real - x == x * n as real;
    }
  }

  /** Integer division truncating toward zero, as C and `int(a / b)` do. */
  function TruncDiv(a: int, b: int): int
    requires b > 0
  {
    if a >= 0 then a / b else -((-a) / b)
  }

  /** A whole number of tenths is already rounded. */
  lemma RoundTenths(d: int)
    ensures Round1(Tenths(d)) == d
  {
    assert Tenths(d) * 10.0 == d as real;
  }

  /** Rounding a rounded time changes nothing. */
  lemma RoundedIdempotent(x: real)
    ensures Rounded(Rounded(x)) == Rounded(x)
  {
    RoundTenths(Round1(x));
  }

  /** A whole number of seconds is a whole number of tenths. */
  lemma RoundWholeSeconds(n: int)
    ensures Round1(n as real) == 10 * n
  {
    assert n as real == Tenths(10 * n);
    RoundTenths(10 * n);
  }

  /** Truncating a whole number of tenths times a whole factor. */
  lemma TruncTenthsTimes(m: int, k: int)
    ensures Trunc(Tenths(m) * k as real) == TruncDiv(m * k, 10)
  {
    var x := Tenths(m) * k as real;
    assert x == (m * k) as real / 10.0;
    var a := m * k;
    if a >= 0 {
      var q := a / 10;
      assert q as real <= x < q as real + 1.0;
      FloorUnique(x, q);
    } else {
      var q := (-a) / 10;
      assert -x == (-a) as real / 10.0;
      assert q as real <= -x < q as real + 1.0;
      FloorUnique(-x, q);
    }
  }

  /** `int(x * n)` for `x` a whole number of tenths. */
  lemma TruncTimesTenths(m: int, n: int)
    ensures Trunc(Times(Tenths(m), n)) == TruncDiv(m * n, 10)
  {
    TimesIsProduct(Tenths(m), n);
    TruncTenthsTimes(m, n);
  }

  lemma FloorUnique(x: real, q: int)
    requires q as real <= x < q as real + 1.0
    ensures x.Floor == q
  {
  }
}
