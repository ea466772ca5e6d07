/** Arithmetic with a symbolic divisor, used by the ring buffers. */
module Arith {

  function Quotient(x: nat, m: nat): nat
    requires m > 0
  {
    x / m
  }

  lemma MulAtLeast(c: nat, k: int)
    requires k >= 1
    ensures c * k >= c
  {
  }

  lemma MulAtMost(c: nat, k: int)
    requires k <= 0
    ensures c * k <= 0
  {
  }

  lemma DivMod(x: nat, c: nat)
    requires c > 0
    ensures x == c * (x / c) + x % c && 0 <= x % c < c
  {
  }

  /** Two indices less than a lap apart fall on different cells. */
  lemma ModDistinct(i: nat, j: nat, c: nat)
    requires i < j < i + c
    ensures i % c != j % c
  {
    DivMod(i, c);
    DivMod(j, c);
    var k := j / c - i / c;
    assert c * (j / c) - c * (i / c) == c * k;
    if k <= 0 { MulAtMost(c, k); } else { MulAtLeast(c, k); }
  }

  lemma MulMono(a: nat, b: nat, c: nat)
    requires a <= b
    ensures a * c <= b * c
  {
    var d := b - a;
    assert b * c == a * c + d * c;
  }

  /** The quotient and remainder of a sum in that form. */
  lemma DivModOf(a: nat, x: nat, m: nat)
    requires x < m
    ensures (a * m + x) / m == a && (a * m + x) % m == x
  {
    var y := a * m + x;
    DivMod(y, m);
    var k := y / m - a;
    assert m * k == m * (y / m) - a * m;
    if k > 0 { MulAtLeast(m, k); }
    if k < 0 { MulAtLeast(m, -k); }
  }
}
