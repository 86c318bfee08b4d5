/** Exact integer powers, logarithms and divisions that stand in for the
    floating-point `eta ** i`, `math.log` and `math.floor`/`math.ceil`. */
module Arith {

  function Pow(b: nat, e: nat): (p: nat)
    ensures b >= 1 ==> p >= 1
  {
    if e == 0 then 1 else b * Pow(b, e - 1)
  }

  lemma PowSucc(b: nat, e: nat)
    ensures Pow(b, e + 1) == b * Pow(b, e)
  {
  }

  lemma MulAssoc(a: int, b: int, c: int)
    ensures (a * b) * c == a * (b * c)
  {
  }

  lemma MulRotate(a: int, b: int, c: int)
    ensures a * (b * c) == b * (a * c)
  {
  }

  /** Dividing a quotient once more by d >= 1 divides by the product and
      never increases it. */
  lemma DivStep(a: nat, e: nat, d: nat)
    requires e >= 1 && d >= 1
    ensures a / (d * e) == a / e / d <= a / e
  {
    DivDiv(a, e, d);
    assert e * d == d * e;
    DivAtMost(a / e, d);
  }

  lemma DivAtMost(a: nat, d: nat)
    requires d >= 1
    ensures a / d <= a
  {
    if a / d > a {
      MulLeft(d, a + 1, a / d);
      MulAtLeast(d, a + 1);
    }
  }

  /** A number at least its positive divisor has quotient at least 1. */
  lemma DivAtLeastOne(a: nat, d: nat)
    requires d >= 1 && a >= d
    ensures a / d >= 1
  {
  }

  /** Scaling a non-negative real by a factor of at least 1 never shrinks it. */
  lemma ScaleUp(x: real, k: real)
    requires x >= 0.0 && k >= 1.0
    ensures x <= x * k
  {
  }

  lemma {:induction false} PowMonotone(b: nat, i: nat, j: nat)
    requires b >= 1 && i <= j
    ensures Pow(b, i) <= Pow(b, j)
  {
    if i < j {
      PowMonotone(b, i, j - 1);
      MulAtLeast(b, Pow(b, j - 1));
    }
  }

  lemma MulAtLeast(a: nat, x: nat)
    requires a >= 1
    ensures x <= a * x
  {
  }

  lemma MulLeft(a: nat, x: int, y: int)
    requires x <= y
    ensures a * x <= a * y
  {
  }

  lemma MulSign(m: int, d: int)
    requires m > 0
    ensures d >= 1 ==> m * d >= m
    ensures d <= -1 ==> m * d <= -m
  {
  }

  /** Division by a positive number is determined by quotient and remainder bounds. */
  lemma DivUnique(a: int, m: int, q: int, r: int)
    requires m > 0 && 0 <= r < m && a == m * q + r
    ensures a / m == q
  {
    var q', r' := a / m, a % m;
    assert m * (q - q') == r' - r;
    MulSign(m, q - q');
  }

  /** Dividing twice is dividing by the product: floor(floor(a/b)/c) == floor(a/(b*c)). */
  lemma DivDiv(a: nat, b: nat, c: nat)
    requires b >= 1 && c >= 1
    ensures a / b / c == a / (b * c)
  {
    var q, r1 := a / b, a % b;
    var q2, r2 := q / c, q % c;
    assert a == b * q + r1;
    assert q == c * q2 + r2;
    assert a == (b * c) * q2 + (b * r2 + r1);
    MulLeft(b, r2, c - 1);
    DivUnique(a, b * c, q2, b * r2 + r1);
  }

  /** floor(log_eta x) for x >= 1: the largest s with eta^s <= x. */
  function ILog(eta: nat, x: nat): (s: nat)
    requires eta >= 2 && x >= 1
    ensures Pow(eta, s) <= x < Pow(eta, s + 1)
    decreases x
  {
    if x < eta then 0
    else
      var s' := ILog(eta, x / eta);
      ILogStep(eta, x, s');
      1 + s'
  }

  lemma ILogStep(eta: nat, x: nat, s: nat)
    requires eta >= 2 && x >= eta
    requires Pow(eta, s) <= x / eta < Pow(eta, s + 1)
    ensures Pow(eta, s + 1) <= x < Pow(eta, s + 2)
  {
    DivBracket(x, eta, Pow(eta, s), Pow(eta, s + 1));
    assert Pow(eta, s + 1) == eta * Pow(eta, s);
    assert Pow(eta, s + 2) == eta * Pow(eta, s + 1);
  }

  lemma DivBracket(x: nat, d: nat, lo: nat, hi: nat)
    requires d >= 1 && lo <= x / d < hi
    ensures d * lo <= x < d * hi
  {
    MulLeft(d, lo, x / d);
    MulLeft(d, x / d + 1, hi);
  }

  /** Any s with eta^s <= x is at most floor(log_eta x). */
  lemma ILogAtLeast(eta: nat, x: nat, s: nat)
    requires eta >= 2 && x >= 1 && Pow(eta, s) <= x
    ensures s <= ILog(eta, x)
  {
    if s > ILog(eta, x) {
      PowMonotone(eta, ILog(eta, x) + 1, s);
    }
  }

  /** ceil(a / b) for b >= 1; positive when a is. */
  function CeilDiv(a: nat, b: nat): (q: nat)
    requires b >= 1
    ensures a >= 1 ==> q >= 1
  {
    if a >= 1 then DivAtLeastOne(a + b - 1, b); (a + b - 1) / b
    else (a + b - 1) / b
  }

  /** CeilDiv is the least q with a <= b * q. */
  lemma CeilDivBounds(a: nat, b: nat)
    requires b >= 1
    ensures b * (CeilDiv(a, b) - 1) < a <= b * CeilDiv(a, b)
  {
    var q := CeilDiv(a, b);
    assert a + b - 1 == b * q + (a + b - 1) % b;
  }
}
