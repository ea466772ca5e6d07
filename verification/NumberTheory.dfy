/** Divisibility, Euclid's lemma, the binomial theorem and Fermat's little theorem. */
module NumberTheory {
  import opened Arith

  ghost predicate Divides(d: int, x: int) { exists k: int :: x == d * k }

  predicate Prime(p: nat) { p >= 2 && forall d :: 2 <= d < p ==> p % d != 0 }

  lemma DividesBy(d: int, x: int, k: int)
    requires x == d * k
    ensures Divides(d, x)
  {
  }

  lemma DividesSum(d: int, x: int, y: int)
    requires Divides(d, x) && Divides(d, y)
    ensures Divides(d, x + y) && Divides(d, x - y)
  {
    var j :| x == d * j;
    var k :| y == d * k;
    assert x + y == d * (j + k);
    assert x - y == d * (j - k);
  }

  lemma DividesTimes(d: int, x: int, m: int)
    requires Divides(d, x)
    ensures Divides(d, x * m) && Divides(d, m * x)
  {
    var k :| x == d * k;
    assert x * m == d * (k * m) && m * x == d * (k * m);
  }

  lemma DividesMod(d: nat, x: nat)
    requires d > 0
    ensures Divides(d, x) <==> x % d == 0
  {
    if x % d == 0 { DividesBy(d, x, x / d); }
    if Divides(d, x) {
      var k :| x == d * k;
      ModZero(d, x, k);
    }
  }

  lemma ModZero(d: nat, x: nat, k: int)
    requires d > 0 && x == d * k
    ensures x % d == 0
  {
    DivMod(x, d);
    var q, r := x / d, x % d;
    assert d * (k - q) == d * k - d * q;
    if k - q > 0 { MulAtLeast(d, k - q); }
    if k - q < 0 {
      assert d * (q - k) == d * q - d * k;
      MulAtLeast(d, q - k);
    }
  }

  lemma DividesSmall(d: nat, x: nat)
    requires Divides(d, x) && x < d
    ensures x == 0
  {
    DividesMod(d, x);
  }

  /** A prime that divides a product divides a factor. */
  lemma Euclid(p: nat, a: nat, b: int)
    requires Prime(p) && Divides(p, a * b) && !Divides(p, a)
    ensures Divides(p, b)
  {
    var r := a % p;
    DividesMod(p, a);
    DividesBy(p, p * (a / p * b), a / p * b);
    assert r * b == a * b - p * (a / p * b);
    DividesSum(p, a * b, p * (a / p * b));
    EuclidBelow(p, r, b);
  }

  lemma {:induction false} EuclidBelow(p: nat, a: nat, b: int)
    requires Prime(p) && 0 < a < p && Divides(p, a * b)
    ensures Divides(p, b)
    decreases a
  {
    if a > 1 {
      var q, r := p / a, p % a;
      assert p % a != 0;
      DividesTimes(p, a * b, q);
      DividesBy(p, p * b, b);
      assert r * b == p * b - q * (a * b) by {
        assert p == a * q + r;
        assert p * b == (a * q + r) * b == q * (a * b) + r * b;
      }
      DividesSum(p, p * b, q * (a * b));
      EuclidBelow(p, r, b);
    } else {
      assert a * b == b;
    }
  }

  // ---------------------------------------------------------------------------------------
  // Congruence
  // ---------------------------------------------------------------------------------------

  ghost predicate Cong(p: int, x: int, y: int) { Divides(p, x - y) }

  lemma CongRefl(p: int, x: int)
    ensures Cong(p, x, x)
  {
    DividesBy(p, x - x, 0);
  }

  lemma CongTrans(p: int, x: int, y: int, z: int)
    requires Cong(p, x, y) && Cong(p, y, z)
    ensures Cong(p, x, z)
  {
    DividesSum(p, x - y, y - z);
  }

  lemma CongSym(p: int, x: int, y: int)
    requires Cong(p, x, y)
    ensures Cong(p, y, x)
  {
    DividesTimes(p, x - y, -1);
  }

  lemma CongMul(p: int, x: int, y: int, u: int, v: int)
    requires Cong(p, x, y) && Cong(p, u, v)
    ensures Cong(p, x * u, y * v)
  {
    DividesTimes(p, x - y, u);
    DividesTimes(p, u - v, y);
    assert x * u - y * v == (x - y) * u + y * (u - v);
    DividesSum(p, (x - y) * u, y * (u - v));
  }

  lemma CongMod(p: nat, x: nat)
    requires p > 0
    ensures Cong(p, x % p, x) && Cong(p, x, x % p)
  {
    DividesBy(p, x - x % p, x / p);
    CongSym(p, x, x % p);
  }

  /** Congruent remainders are equal. */
  lemma CongSmall(p: nat, x: nat, y: nat)
    requires Cong(p, x, y) && x < p && y < p
    ensures x == y
  {
    if x >= y { DividesSmall(p, x - y); }
    else { CongSym(p, x, y); DividesSmall(p, y - x); }
  }

  lemma CongSame(p: nat, x: nat, y: nat)
    requires p > 0
    ensures Cong(p, x, y) <==> x % p == y % p
  {
    CongMod(p, x);
    CongMod(p, y);
    if Cong(p, x, y) {
      CongTrans(p, x % p, x, y);
      CongTrans(p, x % p, y, y % p);
      CongSmall(p, x % p, y % p);
    }
    if x % p == y % p {
      CongTrans(p, x, x % p, y);
    }
  }

  // ---------------------------------------------------------------------------------------
  // Powers
  // ---------------------------------------------------------------------------------------

  function Pow(a: nat, n: nat): nat { if n == 0 then 1 else a * Pow(a, n - 1) }

  lemma {:induction false} PowAdd(a: nat, m: nat, n: nat)
    ensures Pow(a, m + n) == Pow(a, m) * Pow(a, n)
  {
    if m > 0 {
      PowAdd(a, m - 1, n);
      assert a * (Pow(a, m - 1) * Pow(a, n)) == (a * Pow(a, m - 1)) * Pow(a, n);
    }
  }

  lemma {:induction false} PowPow(a: nat, n: nat)
    ensures Pow(a * a, n) == Pow(a, 2 * n)
  {
    if n > 0 {
      PowPow(a, n - 1);
      var q := Pow(a, 2 * n - 2);
      assert Pow(a, 2 * n) == a * Pow(a, 2 * n - 1) == a * (a * q);
      assert (a * a) * q == a * (a * q);
    }
  }

  lemma {:induction false} PowCong(p: nat, a: nat, b: nat, n: nat)
    requires Cong(p, a, b)
    ensures Cong(p, Pow(a, n), Pow(b, n))
  {
    if n == 0 { CongRefl(p, 1); }
    else {
      PowCong(p, a, b, n - 1);
      CongMul(p, a, b, Pow(a, n - 1), Pow(b, n - 1));
    }
  }

  // ---------------------------------------------------------------------------------------
  // Binomials
  // ---------------------------------------------------------------------------------------

  function Choose(n: nat, k: nat): nat {
    if k == 0 then 1 else if n == 0 then 0 else Choose(n - 1, k - 1) + Choose(n - 1, k)
  }

  lemma {:induction false} ChooseNone(n: nat, k: nat)
    requires k > n
    ensures Choose(n, k) == 0
  {
    if n > 0 { ChooseNone(n - 1, k - 1); ChooseNone(n - 1, k); }
  }

  lemma {:induction false} ChooseAll(n: nat)
    ensures Choose(n, n) == 1
  {
    if n > 0 { ChooseAll(n - 1); ChooseNone(n - 1, n); }
  }

  lemma AbsorbStep(n: nat, k: nat, a: nat, b: nat, c: nat, d: nat)
    requires n > 0 && k > 0 && k * b == (n - 1) * c && (k - 1) * a == (n - 1) * d && a == d + c
    ensures k * (a + b) == n * a
  {
    assert k * (a + b) == (k - 1) * a + a + k * b;
    assert (n - 1) * (d + c) == (n - 1) * d + (n - 1) * c;
    assert n * a == (n - 1) * a + a;
  }

  /** k (n over k) = n (n-1 over k-1). */
  lemma {:induction false} ChooseAbsorb(n: nat, k: nat)
    requires n > 0 && k > 0
    ensures k * Choose(n, k) == n * Choose(n - 1, k - 1)
  {
    if n == 1 {
      if k > 1 { ChooseNone(1, k); ChooseNone(0, k - 1); }
    } else {
      ChooseAbsorb(n - 1, k);
      if k > 1 { ChooseAbsorb(n - 1, k - 1); }
      ChooseStep(n, k);
    }
  }

  lemma ChooseStep(n: nat, k: nat)
    requires n > 1 && k > 0 && k * Choose(n - 1, k) == (n - 1) * Choose(n - 2, k - 1)
    requires k > 1 ==> (k - 1) * Choose(n - 1, k - 1) == (n - 1) * Choose(n - 2, k - 2)
    ensures k * Choose(n, k) == n * Choose(n - 1, k - 1)
  {
    var a, b, c := Choose(n - 1, k - 1), Choose(n - 1, k), Choose(n - 2, k - 1);
    var d := if k == 1 then 0 else Choose(n - 2, k - 2);
    assert a == d + c && Choose(n, k) == a + b;
    hide Choose;
    AbsorbStep(n, k, a, b, c, d);
  }

  /** A prime divides its inner binomials. */
  lemma PrimeChoose(p: nat, k: nat)
    requires Prime(p) && 0 < k < p
    ensures Divides(p, Choose(p, k))
  {
    ChooseAbsorb(p, k);
    DividesBy(p, k * Choose(p, k), Choose(p - 1, k - 1));
    if Divides(p, k) { DividesSmall(p, k); }
    Euclid(p, k, Choose(p, k));
  }

  /** The first terms of (x + 1)^n. */
  function Terms(n: nat, x: nat, m: nat): nat {
    Choose(n, m) * Pow(x, m) + if m == 0 then 0 else Terms(n, x, m - 1)
  }

  lemma {:induction false} TermsStep(n: nat, x: nat, m: nat)
    requires n > 0 && m > 0
    ensures Terms(n, x, m) == Terms(n - 1, x, m) + x * Terms(n - 1, x, m - 1)
  {
    var a, b, q := Choose(n - 1, m - 1), Choose(n - 1, m), Pow(x, m - 1);
    assert Choose(n, m) * Pow(x, m) == b * Pow(x, m) + x * (a * q) by {
      assert (a + b) * (x * q) == b * (x * q) + x * (a * q);
    }
    if m > 1 {
      TermsStep(n, x, m - 1);
      assert x * (a * q + Terms(n - 1, x, m - 2)) == x * (a * q) + x * Terms(n - 1, x, m - 2);
    }
  }

  lemma BinomialStep(x: nat, q: nat, t: nat)
    requires q == t
    ensures (x + 1) * q == t + x * t
  {
  }

  lemma {:induction false} Binomial(n: nat, x: nat)
    ensures Pow(x + 1, n) == Terms(n, x, n)
  {
    if n > 0 {
      Binomial(n - 1, x);
      TermsStep(n, x, n);
      ChooseNone(n - 1, n);
      var t := Terms(n - 1, x, n - 1);
      assert Terms(n - 1, x, n) == t by { assert Choose(n - 1, n) * Pow(x, n) == 0; }
      BinomialStep(x, Pow(x + 1, n - 1), t);
    }
  }

  lemma {:induction false} InnerTerms(p: nat, x: nat, m: nat)
    requires Prime(p) && m < p
    ensures Cong(p, Terms(p, x, m), 1)
  {
    if m == 0 { CongRefl(p, 1); }
    else {
      InnerTerms(p, x, m - 1);
      PrimeChoose(p, m);
      DividesTimes(p, Choose(p, m), Pow(x, m));
      DividesSum(p, Choose(p, m) * Pow(x, m), Terms(p, x, m - 1) - 1);
    }
  }

  /** x^p is congruent to x. */
  lemma {:induction false} FermatFull(p: nat, x: nat)
    requires Prime(p)
    ensures Cong(p, Pow(x, p), x)
  {
    if x == 0 {
      CongRefl(p, 0);
    } else {
      FermatFull(p, x - 1);
      Binomial(p, x - 1);
      ChooseAll(p);
      InnerTerms(p, x - 1, p - 1);
      assert Terms(p, x - 1, p) == Pow(x - 1, p) + Terms(p, x - 1, p - 1);
      DividesSum(p, Pow(x - 1, p) - (x - 1), Terms(p, x - 1, p - 1) - 1);
    }
  }

  /** Fermat's little theorem. */
  lemma Fermat(p: nat, a: nat)
    requires Prime(p) && !Divides(p, a)
    ensures Cong(p, Pow(a, p - 1), 1)
  {
    FermatFull(p, a);
    assert a * (Pow(a, p - 1) - 1) == Pow(a, p) - a;
    Euclid(p, a, Pow(a, p - 1) - 1);
  }

  /** Modulo a prime, one has no square roots but one and minus one. */
  lemma RootsOfOne(p: nat, x: nat)
    requires Prime(p) && x < p && x * x % p == 1
    ensures x == 1 || x == p - 1
  {
    CongMod(p, x * x);
    CongSym(p, x * x % p, x * x);
    assert (x + 1) * (x - 1) == x * x - 1;
    if Divides(p, x + 1) {
      if x + 1 < p { DividesSmall(p, x + 1); }
    } else {
      Euclid(p, x + 1, x - 1);
      if x >= 1 { DividesSmall(p, x - 1); }
    }
  }

  // ---------------------------------------------------------------------------------------
  // Pocklington's criterion
  // ---------------------------------------------------------------------------------------

  /** The least divisor from `d` on is prime, if there is none before `d`. */
  lemma {:induction false} PrimeDivisor(n: nat, d: nat) returns (p: nat)
    requires 2 <= d <= n && forall e :: 2 <= e < d ==> n % e != 0
    ensures Prime(p) && n % p == 0 && p <= n
    decreases n - d
  {
    if n % d == 0 {
      p := d;
      forall e | 2 <= e < d ensures d % e != 0 { if d % e == 0 { DividesOn(n, d, e); } }
    } else {
      p := PrimeDivisor(n, d + 1);
    }
  }

  lemma DividesOn(n: nat, d: nat, e: nat)
    requires d > 0 && e > 0 && n % d == 0 && d % e == 0
    ensures n % e == 0
  {
    DivMod(n, d);
    DivMod(d, e);
    assert n == e * (d / e * (n / d));
    ModZero(e, n, d / e * (n / d));
  }

  lemma {:induction false} PowMany(a: nat, r: nat, q: nat)
    ensures Pow(Pow(a, r), q) == Pow(a, r * q)
  {
    if q > 0 {
      PowMany(a, r, q - 1);
      PowAdd(a, r, r * (q - 1));
      assert r * q == r + r * (q - 1);
    }
  }

  /** If the m-th power is one, the power depends on the exponent modulo m only. */
  lemma {:induction false} PowPeriod(p: nat, b: nat, m: nat, k: nat, s: nat)
    requires Cong(p, Pow(b, m), 1)
    ensures Cong(p, Pow(b, m * k + s), Pow(b, s))
  {
    if k == 0 {
      CongRefl(p, Pow(b, s));
    } else {
      PowPeriod(p, b, m, k - 1, s);
      var e := m * (k - 1) + s;
      assert m * k + s == m + e;
      PowAdd(b, m, e);
      CongRefl(p, Pow(b, e));
      CongMul(p, Pow(b, m), 1, Pow(b, e), Pow(b, e));
      CongTrans(p, Pow(b, m) * Pow(b, e), Pow(b, e), Pow(b, s));
    }
  }

  /** If a prime power and a smaller power of a number are one, so is the number. */
  lemma {:induction false} OneByTwoPowers(p: nat, b: nat, q: nat, m: nat)
    requires Prime(q) && 0 < m < q && Cong(p, Pow(b, q), 1) && Cong(p, Pow(b, m), 1)
    ensures Cong(p, b, 1)
    decreases m
  {
    if m == 1 {
      assert Pow(b, 1) == b * Pow(b, 0) == b;
    } else {
      var k, s := q / m, q % m;
      DivMod(q, m);
      PowPeriod(p, b, m, k, s);
      CongSym(p, Pow(b, q), Pow(b, s));
      CongTrans(p, Pow(b, s), Pow(b, q), 1);
      OneByTwoPowers(p, b, q, s);
    }
  }

  lemma CongDivisor(p: nat, n: nat, x: int, y: int)
    requires p > 0 && n % p == 0 && Cong(n, x, y)
    ensures Cong(p, x, y)
  {
    DividesMod(p, n);
    var j :| x - y == n * j;
    DividesTimes(p, n, j);
  }

  lemma PowerOfOne(p: nat, b: nat, q: nat)
    requires p >= 2 && q >= 1 && Cong(p, Pow(b, q), 1)
    ensures !Divides(p, b)
  {
    if Divides(p, b) {
      DividesTimes(p, b, Pow(b, q - 1));
      DividesSum(p, Pow(b, q), Pow(b, q) - 1);
      DividesSmall(p, 1);
    }
  }

  lemma NoInverse(p: nat, b: nat, x: int)
    requires p >= 2 && Cong(p, b, 1)
    ensures !Cong(p, (b - 1) * x, 1)
  {
    if Cong(p, (b - 1) * x, 1) {
      DividesTimes(p, b - 1, x);
      DividesSum(p, (b - 1) * x, (b - 1) * x - 1);
      DividesSmall(p, 1);
    }
  }

  /** A prime divisor of q r + 1 with these powers is above q. */
  lemma DivisorAbove(n: nat, q: nat, r: nat, a: nat, x: nat, p: nat)
    requires Prime(q) && n == q * r + 1 && Cong(n, Pow(a, r * q), 1) && Cong(n, (Pow(a, r) - 1) * x, 1)
    requires Prime(p) && n % p == 0
    ensures p > q
  {
    PrimeAtLeast(p);
    PrimeAtLeast(q);
    hide Prime, Pow, Cong, Divides;
    var b := Pow(a, r);
    PowMany(a, r, q);
    CongDivisor(p, n, Pow(b, q), 1);
    CongDivisor(p, n, (b - 1) * x, 1);
    PowerOfOne(p, b, q);
    if p <= q {
      Fermat(p, b);
      OneByTwoPowers(p, b, q, p - 1);
      NoInverse(p, b, x);
    }
  }

  lemma PrimeAtLeast(p: nat)
    requires Prime(p)
    ensures p >= 2
  {
  }

  /** Pocklington's criterion with one prime factor of n - 1. */
  lemma Pocklington(n: nat, q: nat, r: nat, a: nat, x: nat)
    requires Prime(q) && n == q * r + 1 && 2 <= n < q * q
    requires Cong(n, Pow(a, r * q), 1) && Cong(n, (Pow(a, r) - 1) * x, 1)
    ensures Prime(n)
  {
    forall d | 2 <= d < n ensures n % d != 0 {
      if n % d == 0 {
        var p := PrimeDivisor(d, 2);
        var e := n / d;
        DivMod(n, d);
        assert e >= 2 by { assert n == d * e; }
        ModZero(e, n, d);
        var p' := PrimeDivisor(e, 2);
        DividesOn(n, d, p);
        DividesOn(n, e, p');
        DivisorAbove(n, q, r, a, x, p);
        DivisorAbove(n, q, r, a, x, p');
        MulMono(q, d, q);
        MulMono(q, e, d);
      }
    }
  }
}
