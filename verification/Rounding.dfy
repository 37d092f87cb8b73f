/** Exact arithmetic behind the health score: products, quotients and shares, and rounding to two
    decimals. Product and quotient are named functions here, with the few facts about them the
    score needs, so that elsewhere the arithmetic stays linear. Rounding to hundredths is monotone,
    keeps what is already in hundredths, and is never off by more than half a hundredth. */
module Rounding {
  function Scale(x: real, f: real): real {
    x * f
  }

  function Quotient(a: real, b: real): real
    requires b != 0.0
  {
    a / b
  }

  lemma {:induction false} ScaleMonotone(x: real, y: real, f: real)
    requires x <= y && f >= 0.0
    ensures Scale(x, f) <= Scale(y, f) && Scale(f, x) <= Scale(f, y)
  {
    assert (y - x) * f >= 0.0;
  }

  lemma {:induction false} ScaleUnits(x: real)
    ensures Scale(x, 0.0) == 0.0 == Scale(0.0, x) && Scale(x, 1.0) == x == Scale(1.0, x)
  {
  }

  lemma {:induction false} ScaleBounds(x: real, f: real, top: real)
    requires 0.0 <= x <= top && 0.0 <= f <= 1.0
    ensures 0.0 <= Scale(x, f) <= top
  {
    ScaleUnits(x);
    ScaleMonotone(0.0, f, x);
    ScaleMonotone(f, 1.0, x);
  }

  lemma {:induction false} ProductMonotone(a: real, b: real, c: real, d: real)
    requires 0.0 <= a <= c && 0.0 <= b <= d
    ensures 0.0 <= Scale(a, b) <= Scale(c, d)
  {
    ScaleUnits(b);
    ScaleMonotone(0.0, a, b);
    ScaleMonotone(a, c, b);
    ScaleMonotone(b, d, c);
  }

  lemma {:induction false} QuotientOfProduct(a: real, b: real)
    requires b > 0.0
    ensures Scale(Quotient(a, b), b) == a
  {
    var q := a / b;
    assert q * b == a;
  }

  /** Fractions compare like their cross products. */
  lemma {:induction false} QuotientLeExactly(a: real, b: real, c: real, d: real)
    requires b > 0.0 && d > 0.0
    ensures Quotient(a, b) <= Quotient(c, d) <==> a * d <= c * b
  {
    var p, q := a / b, c / d;
    assert p * b == a && q * d == c;
    assert a * d == p * (b * d) && c * b == q * (b * d);
    assert b * d > 0.0;
    if p <= q {
      assert (q - p) * (b * d) >= 0.0;
    } else {
      assert (p - q) * (b * d) > 0.0;
    }
  }

  lemma {:induction false} QuotientBounds(a: real, b: real)
    requires 0.0 <= a <= b && b > 0.0
    ensures 0.0 <= Quotient(a, b) <= 1.0
  {
    QuotientLeExactly(0.0, 1.0, a, b);
    QuotientLeExactly(a, b, 1.0, 1.0);
  }

  lemma {:induction false} QuotientOrder(a: real, b: real, d: real)
    requires d > 0.0 && a <= b
    ensures Quotient(a, d) <= Quotient(b, d)
  {
    assert (b - a) * d >= 0.0;
    QuotientLeExactly(a, d, b, d);
  }

  lemma {:induction false} LargerDivisor(a: real, d: real, e: real)
    requires a >= 0.0 && 0.0 < d <= e
    ensures Quotient(a, e) <= Quotient(a, d)
  {
    assert a * (e - d) >= 0.0;
    QuotientLeExactly(a, e, a, d);
  }

  /** A new value lowers an average exactly when it lies below it. */
  lemma {:induction false} AverageDropsExactly(total: real, value: real, n: real)
    requires n > 0.0
    ensures Quotient(total + value, n + 1.0) < Quotient(total, n) <==> Scale(value, n) < total
  {
    QuotientLeExactly(total, n, total + value, n + 1.0);
    assert total * (n + 1.0) == total * n + total;
    assert (total + value) * n == total * n + value * n;
  }

  /** The part that `good` makes of good and bad together; nothing of nothing. */
  function Share(good: real, bad: real): real
    requires good >= 0.0 && bad >= 0.0
  {
    if good + bad == 0.0 then 0.0 else Quotient(good, good + bad)
  }

  lemma {:induction false} ShareBounds(good: real, bad: real)
    requires good >= 0.0 && bad >= 0.0
    ensures 0.0 <= Share(good, bad) <= 1.0
  {
    if good + bad > 0.0 { QuotientBounds(good, good + bad); }
  }

  lemma {:induction false} CrossMonotone(good: real, bad: real, better: real, less: real)
    requires 0.0 <= good <= better && bad >= less >= 0.0
    ensures good * (better + less) <= better * (good + bad)
  {
    assert (better - good) * less >= 0.0;
    assert better * (bad - less) >= 0.0;
    assert good * (better + less) == good * better + good * less;
    assert better * (good + bad) == better * good + better * bad;
  }

  /** More that is good, or less that is bad, never makes the share smaller. */
  lemma {:induction false} ShareMonotone(good: real, bad: real, better: real, less: real)
    requires 0.0 <= good <= better && bad >= less >= 0.0
    ensures 0.0 <= Share(good, bad) <= Share(better, less) <= 1.0
  {
    ShareBounds(good, bad);
    ShareBounds(better, less);
    if good + bad > 0.0 && better + less > 0.0 {
      CrossMonotone(good, bad, better, less);
      QuotientLeExactly(good, good + bad, better, better + less);
    }
  }

  // ---- Two decimals ----

  /** toFixed(2), which resolves ties upward, on exact values. */
  function Round(x: real): real {
    Cents((100.0 * x + 0.5).Floor)
  }

  function Cents(k: int): real {
    k as real / 100.0
  }

  ghost predicate Hundredths(x: real) {
    exists k: int :: x == Cents(k)
  }

  lemma {:induction false} FloorMonotone(x: real, y: real)
    requires x <= y
    ensures x.Floor <= y.Floor
  {
  }

  lemma {:induction false} RoundMonotone(x: real, y: real)
    requires x <= y
    ensures Round(x) <= Round(y)
  {
    FloorMonotone(100.0 * x + 0.5, 100.0 * y + 0.5);
  }

  /** Rounding lands on hundredths, within half of one, and leaves hundredths alone. */
  lemma {:induction false} RoundNearest(x: real)
    ensures Hundredths(Round(x)) && x - 0.005 < Round(x) <= x + 0.005
    ensures Hundredths(x) ==> Round(x) == x
  {
    var k := (100.0 * x + 0.5).Floor;
    assert Round(x) == Cents(k);
    if Hundredths(x) {
      var n: int :| x == Cents(n);
      assert 100.0 * x == n as real;
      assert (n as real + 0.5).Floor == n;
    }
  }

  lemma {:induction false} HundredthsAdd(x: real, y: real)
    requires Hundredths(x) && Hundredths(y)
    ensures Hundredths(x + y)
  {
    var m: int, n: int :| x == Cents(m) && y == Cents(n);
    assert x + y == Cents(m + n);
  }

  lemma {:induction false} WholeIsHundredths(n: int)
    ensures Hundredths(n as real)
  {
    assert n as real == Cents(100 * n);
  }
}
