/** Facts about multiplication, division and remainder with a variable divisor. */
module Arith {

  lemma MulMono(a: int, b: int, m: nat)
    requires a <= b
    ensures a * m <= b * m
  {
    assert (b - a) * m >= 0;
    assert (b - a) * m == b * m - a * m;
  }

  /** Quotient and remainder are determined by the division equation. */
  lemma ModUnique(x: int, m: nat, q: int, r: int)
    requires m >= 1 && x == q * m + r && 0 <= r < m
    ensures x % m == r && x / m == q
  {
    var d := x / m - q;
    assert x == (x / m) * m + x % m;
    assert d * m == r - x % m by { assert (x / m - q) * m == (x / m) * m - q * m; }
    if d > 0 { MulMono(1, d, m); }
    if d < 0 { MulMono(d, -1, m); }
    assert d == 0;
  }

  lemma DivBound(u: nat, n: nat)
    requires n >= 1
    ensures 0 <= u / n <= u && u / n * n + u % n == u
  {
    var q := u / n;
    assert u == q * n + u % n;
    assert q >= 0;
    MulMono(1, n, q);
  }

  function CeilDiv(n: nat, d: nat): nat
    requires d >= 1
  {
    (n + d - 1) / d
  }

  lemma CeilDivOk(n: nat, d: nat, x: nat)
    requires d >= 1
    ensures x < CeilDiv(n, d) <==> x * d < n
  {
    var c := CeilDiv(n, d);
    DivBound(n + d - 1, d);
    if x < c {
      MulMono(x + 1, c, d);
    } else {
      MulMono(c, x, d);
    }
  }
}
