/** Powers of two and the exclusive or of unbounded naturals, bit by bit. */
module Bits {

  function Pow2(n: nat): (r: nat)
    ensures r > 0
  {
    if n == 0 then 1 else 2 * Pow2(n - 1)
  }

  lemma {:induction false} Pow2Split(a: nat, b: nat)
    ensures Pow2(a + b) == Pow2(a) * Pow2(b)
  {
    if a > 0 { Pow2Split(a - 1, b); }
  }

  function Xor(a: nat, b: nat): nat
    decreases a + b
  {
    if a == 0 then b else if b == 0 then a else
      2 * Xor(a / 2, b / 2) + (a + b) % 2
  }

  lemma {:induction false} XorStep(a: nat, b: nat)
    ensures Xor(a, b) / 2 == Xor(a / 2, b / 2) && Xor(a, b) % 2 == (a + b) % 2
  {
  }

  lemma {:induction false} XorComm(a: nat, b: nat)
    ensures Xor(a, b) == Xor(b, a)
    decreases a + b
  {
    if a != 0 && b != 0 { XorComm(a / 2, b / 2); }
  }

  lemma {:induction false} XorSelf(a: nat)
    ensures Xor(a, a) == 0
  {
    if a != 0 { XorSelf(a / 2); }
  }

  lemma SameHalves(x: nat, y: nat)
    requires x / 2 == y / 2 && x % 2 == y % 2
    ensures x == y
  {
  }

  lemma Parity(x: nat, y: nat, a: nat, b: nat)
    requires x % 2 == a % 2 && y % 2 == b % 2
    ensures (x + y) % 2 == (a + b) % 2
  {
  }

  lemma {:induction false} XorAssoc(a: nat, b: nat, c: nat)
    ensures Xor(Xor(a, b), c) == Xor(a, Xor(b, c))
    decreases a + b + c
  {
    hide Xor;
    if a == 0 || b == 0 || c == 0 {
      XorNone(a, b, c);
    } else {
      var l, r := Xor(Xor(a, b), c), Xor(a, Xor(b, c));
      XorStep(a, b);
      XorStep(b, c);
      XorStep(Xor(a, b), c);
      XorStep(a, Xor(b, c));
      XorAssoc(a / 2, b / 2, c / 2);
      Parity(Xor(a, b), c, a + b, c);
      Parity(a, Xor(b, c), a, b + c);
      SameHalves(l, r);
    }
  }

  lemma XorNone(a: nat, b: nat, c: nat)
    requires a == 0 || b == 0 || c == 0
    ensures Xor(Xor(a, b), c) == Xor(a, Xor(b, c))
  {
  }

  /** The low `k` bits and the others do not mix. */
  lemma {:induction false} XorSplit(a: nat, x: nat, b: nat, y: nat, k: nat)
    requires x < Pow2(k) && y < Pow2(k)
    ensures Xor(a * Pow2(k) + x, b * Pow2(k) + y) == Xor(a, b) * Pow2(k) + Xor(x, y) && Xor(x, y) < Pow2(k)
  {
    if k == 0 {
    } else {
      XorSplitStep(a, x, b, y, k, Pow2(k - 1));
    }
  }

  lemma {:induction false} XorSplitStep(a: nat, x: nat, b: nat, y: nat, k: nat, h: nat)
    requires k > 0 && h == Pow2(k - 1) && x < 2 * h && y < 2 * h
    ensures Xor(a * (2 * h) + x, b * (2 * h) + y) == Xor(a, b) * (2 * h) + Xor(x, y) && Xor(x, y) < 2 * h
  {
    hide Xor, Pow2;
    XorSplit(a, x / 2, b, y / 2, k - 1);
    Halve(a, x, h);
    Halve(b, y, h);
    XorStep(a * (2 * h) + x, b * (2 * h) + y);
    XorStep(x, y);
    Halve(Xor(a, b), Xor(x, y), h);
    Parity(a * (2 * h) + x, b * (2 * h) + y, x, y);
    SameHalves(Xor(a * (2 * h) + x, b * (2 * h) + y), Xor(a, b) * (2 * h) + Xor(x, y));
  }

  lemma Halve(a: nat, x: nat, h: nat)
    ensures (a * (2 * h) + x) / 2 == a * h + x / 2 && (a * (2 * h) + x) % 2 == x % 2
  {
    assert a * (2 * h) == 2 * (a * h);
  }

  /** Two numbers are equal exactly when their exclusive or is zero. */
  lemma {:induction false} XorZero(a: nat, b: nat)
    ensures Xor(a, b) == 0 <==> a == b
    decreases a + b
  {
    if a != 0 && b != 0 {
      XorZero(a / 2, b / 2);
      XorStep(a, b);
    }
  }
}
