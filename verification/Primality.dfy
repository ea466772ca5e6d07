/** Primality by trial division and by the Rabin-Miller test on 32-bit words, and the search for the next prime. */
module Primality {
  import opened Arith
  import opened Bits
  import opened NumberTheory

  const WORD: nat := 0x1_0000_0000
  const LONG: nat := 0x1_0000_0000_0000_0000
  const TRIAL_LIMIT: nat := 1373653
  const TWO_BASES_LIMIT: nat := 9080191

  // ---------------------------------------------------------------------------------------
  // Modular powers
  // ---------------------------------------------------------------------------------------

  /** `IsPrime_power`. No product leaves 64 bits. */
  method Power(a: nat, n: nat, mod: nat) returns (result: nat)
    requires a < WORD && n < WORD && 0 < mod < WORD
    ensures result == if n == 0 then 1 else Pow(a, n) % mod
  {
    hide Pow, Cong;
    var power: nat, e: nat := a, n;
    result := 1;
    CongRefl(mod, Pow(a, n));
    while e > 0
      invariant power < WORD && result < WORD && (e == 0 && n > 0 ==> result < mod) && (n == 0 ==> result == 1)
      invariant e <= n && Cong(mod, result * Pow(power, e), Pow(a, n))
      decreases e
    {
      PowerStep(mod, result, power, e, Pow(a, n));
      if e % 2 == 1 {
        ProductFits(result, power);
        result := result * power % mod;
      }
      ProductFits(power, power);
      power := power * power % mod;
      e := e / 2;
    }
    PowZero(power);
    if n > 0 {
      CongSame(mod, result, Pow(a, n));
      SmallMod(result, mod);
    }
  }

  lemma PowZero(x: nat)
    ensures Pow(x, 0) == 1
  {
  }

  lemma ProductFits(x: nat, y: nat)
    requires x < WORD && y < WORD
    ensures x * y < LONG
  {
    MulMono(x, WORD, y);
    MulMono(y, WORD, WORD);
  }

  lemma SmallMod(x: nat, m: nat)
    requires x < m
    ensures x % m == x
  {
  }

  lemma PowHalves(x: nat, e: nat)
    requires e > 0
    ensures Pow(x, e) == if e % 2 == 1 then x * Pow(x, 2 * (e / 2)) else Pow(x, 2 * (e / 2))
  {
  }

  /** One round of the loop, before the remainders are taken. */
  lemma WholeStep(result: nat, power: nat, e: nat)
    requires e > 0
    ensures (if e % 2 == 1 then result * power else result) * Pow(power * power, e / 2) == result * Pow(power, e)
  {
    hide Pow;
    PowHalves(power, e);
    PowPow(power, e / 2);
    var q := Pow(power, 2 * (e / 2));
    assert (result * power) * q == result * (power * q);
  }

  lemma PowerStep(mod: nat, result: nat, power: nat, e: nat, goal: nat)
    requires mod > 0 && e > 0 && Cong(mod, result * Pow(power, e), goal)
    ensures var result' := if e % 2 == 1 then result * power % mod else result;
            Cong(mod, result' * Pow(power * power % mod, e / 2), goal)
  {
    hide Pow, Cong;
    var h := e / 2;
    var result' := if e % 2 == 1 then result * power % mod else result;
    var whole := if e % 2 == 1 then result * power else result;
    if e % 2 == 1 { CongMod(mod, result * power); } else { CongRefl(mod, result); }
    CongMod(mod, power * power);
    PowCong(mod, power * power % mod, power * power, h);
    CongMul(mod, result', whole, Pow(power * power % mod, h), Pow(power * power, h));
    WholeStep(result, power, e);
    CongTrans(mod, result' * Pow(power * power % mod, h), result * Pow(power, e), goal);
  }

  // ---------------------------------------------------------------------------------------
  // Witnesses
  // ---------------------------------------------------------------------------------------

  function OddPart(m: nat): nat
    requires m > 0
  {
    if m % 2 == 1 then m else OddPart(m / 2)
  }

  function Twos(m: nat): nat
    requires m > 0
  {
    if m % 2 == 1 then 0 else 1 + Twos(m / 2)
  }

  lemma {:induction false} OddPartTwos(m: nat)
    requires m > 0
    ensures OddPart(m) * Pow2(Twos(m)) == m && OddPart(m) > 0
  {
    if m % 2 == 0 {
      OddPartTwos(m / 2);
      var q, t := OddPart(m / 2), Pow2(Twos(m / 2));
      assert q * (2 * t) == 2 * (q * t);
    }
  }

  /** a to the u times 2 to the i, modulo n. */
  ghost function Chain(a: nat, u: nat, n: nat, i: nat): nat
    requires n > 0
  {
    Pow(a, u * Pow2(i)) % n
  }

  /** A number whose square is one modulo n although it is neither one nor minus one. */
  ghost predicate OddRoot(a: nat, u: nat, n: nat, i: nat)
    requires n > 0
  {
    Chain(a, u, n, i + 1) == 1 && Chain(a, u, n, i) != 1 && Chain(a, u, n, i) != n - 1
  }

  ghost predicate IsWitness(a: nat, n: nat)
    requires n >= 3
  {
    var u, t := OddPart(n - 1), Twos(n - 1);
    Chain(a, u, n, t) != 1 || exists i :: 0 <= i < t && OddRoot(a, u, n, i)
  }

  lemma ChainStep(a: nat, u: nat, n: nat, i: nat)
    requires n > 0
    ensures Chain(a, u, n, i + 1) == Chain(a, u, n, i) * Chain(a, u, n, i) % n
  {
    var m := u * Pow2(i);
    assert u * Pow2(i + 1) == m + m;
    PowAdd(a, m, m);
    CongMod(n, Pow(a, m));
    CongMul(n, Pow(a, m) % n, Pow(a, m), Pow(a, m) % n, Pow(a, m));
    CongSame(n, (Pow(a, m) % n) * (Pow(a, m) % n), Pow(a, m) * Pow(a, m));
  }

  /** `IsPrime_witness`. */
  method Witness(a: nat, n: nat) returns (w: bool)
    requires a < WORD && 3 <= n < WORD && n % 2 == 1
    ensures w == IsWitness(a, n)
  {
    hide Pow, Pow2, Chain;
    var u, t := n / 2, 1;
    assert OddPart(n - 1) == OddPart(u) && Twos(n - 1) == 1 + Twos(u);
    while u % 2 == 0
      invariant 0 < u < WORD && OddPart(u) == OddPart(n - 1) && t + Twos(u) == Twos(n - 1) && t >= 1
      decreases u
    {
      u := u / 2;
      t := t + 1;
    }
    var prev := Power(a, u, n);
    ChainFirst(a, u, n);
    var curr := 0;
    for i := 1 to t + 1
      invariant prev == Chain(a, u, n, i - 1) && prev < n && (i > 1 ==> curr == prev)
      invariant forall j :: 0 <= j < i - 1 ==> !OddRoot(a, u, n, j)
    {
      ChainStep(a, u, n, i - 1);
      ProductFits(prev, prev);
      curr := prev * prev % n;
      if curr == 1 && prev != 1 && prev != n - 1 {
        assert OddRoot(a, u, n, i - 1);
        return true;
      }
      prev := curr;
    }
    w := curr != 1;
  }

  /** The chain ends at a to the n - 1. */
  lemma ChainEnd(a: nat, n: nat)
    requires n >= 3
    ensures Chain(a, OddPart(n - 1), n, Twos(n - 1)) == Pow(a, n - 1) % n
  {
    hide Pow;
    OddPartTwos(n - 1);
  }

  /** A prime has no witness: Fermat's theorem at the end of the chain, roots of one along it. */
  lemma PrimeHasNoWitness(p: nat, a: nat)
    requires Prime(p) && p >= 3 && 0 < a < p
    ensures !IsWitness(a, p)
  {
    hide Prime, Pow, Pow2, Cong, Divides, Chain, OddPart, Twos;
    var u, t := OddPart(p - 1), Twos(p - 1);
    if Divides(p, a) { DividesSmall(p, a); }
    Fermat(p, a);
    CongSame(p, Pow(a, p - 1), 1);
    SmallMod(1, p);
    ChainEnd(a, p);
    forall i | 0 <= i < t ensures !OddRoot(a, u, p, i) { NoOddRoot(p, a, u, i); }
  }

  lemma NoOddRoot(p: nat, a: nat, u: nat, i: nat)
    requires Prime(p)
    ensures !OddRoot(a, u, p, i)
  {
    ChainStep(a, u, p, i);
    var x := Chain(a, u, p, i);
    assert x < p;
    hide Chain;
    if x * x % p == 1 { RootsOfOne(p, x); }
  }

  // ---------------------------------------------------------------------------------------
  // Trial division
  // ---------------------------------------------------------------------------------------

  /** Neither 6k + 1 nor 6k - 1 divides n, while (6k - 1)^2 is at most n. */
  ghost predicate NoSmallFactor(n: nat) {
    forall k: nat :: k >= 1 && 36 * k * k - 12 * k < n ==> NotBeside(n, k)
  }

  predicate NotBeside(n: nat, k: nat)
    requires k >= 1
  {
    n % (6 * k + 1) != 0 && n % (6 * k - 1) != 0
  }

  /** Of a divisor and its codivisor, one is at most the root. */
  lemma Codivisor(n: nat, d: nat)
    requires 2 <= d < n && n % d == 0
    ensures var e := n / d; 2 <= e && n % e == 0 && (d * d <= n || e * e <= n)
  {
    var e := n / d;
    DivMod(n, d);
    assert n == d * e;
    assert e != 0 && e != 1;
    ModZero(e, n, d);
    if d <= e { MulMono(d, e, d); } else { MulMono(e, d, e); }
  }

  /** A number without divisor up to its root is prime. */
  lemma RootSuffices(n: nat)
    requires n >= 2 && forall d :: 2 <= d && d * d <= n ==> n % d != 0
    ensures Prime(n)
  {
    forall d | 2 <= d < n ensures n % d != 0 {
      if n % d == 0 { Codivisor(n, d); }
    }
  }

  lemma TrialExact(n: nat)
    requires n >= 2 && (n == 2 || n % 2 == 1) && (n == 3 || n % 3 != 0)
    ensures NoSmallFactor(n) <==> Prime(n)
  {
    if Prime(n) {
      forall k: nat | k >= 1 && 36 * k * k - 12 * k < n ensures NotBeside(n, k) { BesideIsProper(n, k); }
    }
    if NoSmallFactor(n) {
      forall d | 2 <= d && d * d <= n ensures n % d != 0 { NoDivisor(n, d); }
      RootSuffices(n);
    }
  }

  lemma BesideIsProper(n: nat, k: nat)
    requires k >= 1 && 36 * k * k - 12 * k < n
    ensures 2 <= 6 * k - 1 < 6 * k + 1 < n
  {
    assert 36 * k * k - 12 * k == k * (36 * k - 12);
    MulMono(1, k, 36 * k - 12);
  }

  lemma NotBesideAt(n: nat, k: nat)
    requires NoSmallFactor(n) && k >= 1 && 36 * k * k - 12 * k < n
    ensures NotBeside(n, k)
  {
  }

  lemma NoDivisor(n: nat, d: nat)
    requires n >= 2 && (n == 2 || n % 2 == 1) && (n == 3 || n % 3 != 0) && NoSmallFactor(n) && 2 <= d && d * d <= n
    ensures n % d != 0
  {
    hide NoSmallFactor;
    MulMono(2, d, d);
    if d % 2 == 0 {
      if n % d == 0 { DividesOn(n, d, 2); }
    } else if d % 3 == 0 {
      if n % d == 0 { DividesOn(n, d, 3); }
    } else {
      NoDivisorBeside(n, d, (d + 1) / 6);
    }
  }

  lemma NoDivisorBeside(n: nat, d: nat, k: nat)
    requires NoSmallFactor(n) && 2 <= d && d * d <= n && d % 2 == 1 && d % 3 != 0 && k == (d + 1) / 6
    ensures n % d != 0
  {
    hide NoSmallFactor;
    Residues(d, k);
    Squares(k, d);
    NotBesideAt(n, k);
  }

  lemma Residues(d: nat, k: nat)
    requires 2 <= d && d % 2 == 1 && d % 3 != 0 && k == (d + 1) / 6
    ensures k >= 1 && (d == 6 * k - 1 || d == 6 * k + 1)
  {
  }

  lemma Squares(k: nat, d: nat)
    requires k >= 1 && (d == 6 * k - 1 || d == 6 * k + 1)
    ensures 36 * k * k - 12 * k < d * d
  {
    assert (6 * k - 1) * (6 * k - 1) == 36 * k * k - 12 * k + 1;
    MulMono(6 * k - 1, d, 6 * k - 1);
    MulMono(6 * k - 1, d, d);
  }

  // ---------------------------------------------------------------------------------------
  // The test
  // ---------------------------------------------------------------------------------------

  /** The inputs on which the test halts. A word of 1 would be halved for ever. */
  predicate Halts(n: nat) {
    n < LONG && (n >= TWO_BASES_LIMIT && n % 2 == 1 && n % 3 != 0 ==> n % WORD != 1)
  }

  /** What `IsPrime` computes: from `TWO_BASES_LIMIT` on it looks at the low 32 bits of `n` only. */
  ghost predicate Accepts(n: nat)
    requires Halts(n)
  {
    && n >= 2 && (n == 2 || n % 2 == 1) && (n == 3 || n % 3 != 0)
    && if n < TRIAL_LIMIT then NoSmallFactor(n)
       else if n < TWO_BASES_LIMIT then !IsWitness(31, n) && !IsWitness(73, n)
       else (var m := n % WORD; LowWord(n); !IsWitness(2, m) && !IsWitness(7, m) && !IsWitness(61, m))
  }

  lemma LowWord(n: nat)
    requires n % 2 == 1
    ensures n % WORD % 2 == 1
  {
  }

  method IsPrime(n: nat) returns (r: bool)
    requires Halts(n)
    ensures r == Accepts(n)
  {
    hide IsWitness, Prime;
    if (n % 2 == 0 && n != 2) || n < 2 || (n % 3 == 0 && n != 3) { return false; }
    if n < TRIAL_LIMIT {
      var k := 1;
      while 36 * k * k - 12 * k < n
        invariant k >= 1 && forall j: nat :: 1 <= j < k ==> NotBeside(n, j)
        decreases n - k
      {
        BesideIsProper(n, k);
        if n % (6 * k + 1) == 0 || n % (6 * k - 1) == 0 {
          assert !NotBeside(n, k);
          return false;
        }
        k := k + 1;
      }
      forall j: nat | j >= 1 && 36 * j * j - 12 * j < n ensures NotBeside(n, j) { TrialEnds(n, k, j); }
      return true;
    }
    LowWord(n);
    if n < TWO_BASES_LIMIT {
      var w := Witness(31, n % WORD);
      if w { return false; }
      w := Witness(73, n % WORD);
      return !w;
    }
    var w := Witness(2, n % WORD);
    if w { return false; }
    w := Witness(7, n % WORD);
    if w { return false; }
    w := Witness(61, n % WORD);
    return !w;
  }

  lemma TrialEnds(n: nat, k: nat, j: nat)
    requires k >= 1 && j >= 1 && 36 * k * k - 12 * k >= n && 36 * j * j - 12 * j < n
    ensures j < k
  {
    if j >= k {
      assert 36 * j * j - 12 * j == j * (36 * j - 12);
      assert 36 * k * k - 12 * k == k * (36 * k - 12);
      MulMono(k, j, 36 * k - 12);
      MulMono(36 * k - 12, 36 * j - 12, j);
    }
  }

  /** No prime below 2 to the 32 is rejected. */
  lemma NeverRejects(p: nat)
    requires Prime(p) && p < WORD
    ensures Halts(p) && Accepts(p)
  {
    assert p % 2 == 0 ==> p == 2;
    assert p % 3 == 0 ==> p == 3;
    if p < TRIAL_LIMIT { TrialExact(p); }
    else {
      PrimeHasNoWitness(p, 31);
      PrimeHasNoWitness(p, 73);
      PrimeHasNoWitness(p, 2);
      PrimeHasNoWitness(p, 7);
      PrimeHasNoWitness(p, 61);
    }
  }

  /** Below the trial limit the test is exact. */
  lemma ExactBelowLimit(n: nat)
    requires n < TRIAL_LIMIT
    ensures Accepts(n) <==> Prime(n)
  {
    if Prime(n) { NeverRejects(n); }
    if Accepts(n) { TrialExact(n); }
  }

  lemma WordHalts(n: nat)
    requires 3 <= n < WORD
    ensures Halts(n)
  {
  }

  /** The search from `n` comes to `q`, if not to an earlier number: the test halts on the way and accepts `q`. */
  ghost predicate Reaches(n: nat, q: nat) {
    n <= q && (n <= 2 || (q % 2 == 1 && forall m :: n <= m <= q && m % 2 == 1 ==> Halts(m))) && Halts(q) && Accepts(q)
  }

  /** The first accepted number from `n` on. That there is one to find, `q`, is the caller's to know. */
  method NextPrime(n: nat, ghost q: nat) returns (r: nat)
    requires Reaches(n, q)
    ensures n <= r <= q && Halts(r) && Accepts(r)
    ensures forall p :: n <= p < r && Halts(p) ==> !Accepts(p)
    ensures forall p :: n <= p < r && p < WORD ==> !Prime(p)
    ensures r < TRIAL_LIMIT ==> Prime(r)
  {
    hide Prime, Accepts, Halts, Reaches;
    if n <= 2 {
      FirstAccepted(n, q);
      return 2;
    }
    ReachesIs(n, q);
    var next: nat := if n % 2 == 0 then n + 1 else n;
    EvenRejected(n);
    while true
      invariant n <= next <= q && next % 2 == 1 && next >= 3
      invariant forall p :: n <= p < next && Halts(p) ==> !Accepts(p)
      decreases q - next
    {
      var found := IsPrime(next);
      if found {
        NotSkipped(n, next);
        if next < TRIAL_LIMIT { ExactBelowLimit(next); }
        return next;
      }
      EvenRejected(next + 1);
      next := next + 2;
    }
  }

  lemma ReachesIs(n: nat, q: nat)
    requires Reaches(n, q) && n > 2
    ensures n <= q && q % 2 == 1 && Halts(q) && Accepts(q)
    ensures forall m :: n <= m <= q && m % 2 == 1 ==> Halts(m)
  {
  }

  lemma EvenRejected(m: nat)
    ensures m > 2 && m % 2 == 0 && Halts(m) ==> !Accepts(m)
  {
  }

  lemma FirstAccepted(n: nat, q: nat)
    requires Reaches(n, q) && n <= 2
    ensures 2 <= q && Halts(2) && Accepts(2) && Prime(2)
    ensures forall p :: n <= p < 2 ==> !Prime(p) && (Halts(p) ==> !Accepts(p))
  {
    ExactBelowLimit(2);
  }

  /** A prime below 2 to the 32 would have been accepted. */
  lemma NotSkipped(n: nat, r: nat)
    requires forall p :: n <= p < r && Halts(p) ==> !Accepts(p)
    ensures forall p :: n <= p < r && p < WORD ==> !Prime(p)
  {
    forall p | n <= p < r && p < WORD ensures !Prime(p) { if Prime(p) { NeverRejects(p); } }
  }

  /** A prime below 2 to the 32 is reached. */
  lemma PrimeReached(n: nat, q: nat)
    requires n <= q < WORD && Prime(q)
    ensures Reaches(n, q)
  {
    NeverRejects(q);
    assert q > 2 ==> q % 2 == 1;
    assert n > 2 ==> forall m :: n <= m <= q && m % 2 == 1 ==> Halts(m) by {
      forall m | 3 <= n <= m <= q ensures Halts(m) { WordHalts(m); }
    }
  }

  // ---------------------------------------------------------------------------------------
  // What the Rabin-Miller test accepts
  // ---------------------------------------------------------------------------------------

  /** n is a strong probable prime to base a: with n - 1 = u 2^t, a to the u is one, or a to the u 2^i minus one for some i < t. */
  ghost predicate StrongProbable(a: nat, n: nat)
    requires n >= 3
  {
    exists u: nat, t: nat :: StrongWith(a, n, u, t)
  }

  ghost predicate StrongWith(a: nat, n: nat, u: nat, t: nat)
    requires n >= 3
  {
    && u % 2 == 1 && u * Pow2(t) == n - 1
    && (Pow(a, u) % n == 1 || exists i :: 0 <= i < t && Pow(a, u * Pow2(i)) % n == n - 1)
  }

  lemma {:induction false} OddPartOdd(m: nat)
    requires m > 0
    ensures OddPart(m) % 2 == 1
  {
    if m % 2 == 0 { OddPartOdd(m / 2); }
  }

  /** The split of a number into an odd part and a power of two is unique. */
  lemma {:induction false} SplitUnique(m: nat, u: nat, t: nat)
    requires m > 0 && u % 2 == 1 && u * Pow2(t) == m
    ensures u == OddPart(m) && t == Twos(m)
  {
    if t == 0 {
      assert u * Pow2(0) == u;
    } else {
      assert u * Pow2(t) == 2 * (u * Pow2(t - 1));
      SplitUnique(m / 2, u, t - 1);
    }
  }

  /** From one on the chain stays at one. */
  lemma {:induction false} OneStays(a: nat, u: nat, n: nat, i: nat, j: nat)
    requires n >= 3 && i <= j && Chain(a, u, n, i) == 1
    ensures Chain(a, u, n, j) == 1
  {
    hide Chain;
    if i < j {
      OneStays(a, u, n, i, j - 1);
      ChainStep(a, u, n, j - 1);
      SmallMod(1, n);
    }
  }

  /** Minus one is followed by one. */
  lemma MinusOneThenOne(a: nat, u: nat, n: nat, i: nat)
    requires n >= 3 && Chain(a, u, n, i) == n - 1
    ensures Chain(a, u, n, i + 1) == 1
  {
    ChainStep(a, u, n, i);
    hide Chain;
    assert (n - 1) * (n - 1) == (n - 2) * n + 1;
    DivModOf(n - 2, 1, n);
  }

  /** A chain that ends at one without an odd root begins with one or passes minus one. */
  lemma {:induction false} ChainPasses(a: nat, u: nat, n: nat, t: nat)
    requires n >= 3 && Chain(a, u, n, t) == 1 && forall i :: 0 <= i < t ==> !OddRoot(a, u, n, i)
    ensures Chain(a, u, n, 0) == 1 || exists i :: 0 <= i < t && Chain(a, u, n, i) == n - 1
  {
    hide Chain;
    if t > 0 {
      assert !OddRoot(a, u, n, t - 1);
      if Chain(a, u, n, t - 1) == 1 { ChainPasses(a, u, n, t - 1); }
    }
  }

  /** The witness test is the test for strong probable primes. */
  lemma WitnessIs(a: nat, n: nat)
    requires n >= 3
    ensures IsWitness(a, n) <==> !StrongProbable(a, n)
  {
    var u, t := OddPart(n - 1), Twos(n - 1);
    OddPartTwos(n - 1);
    OddPartOdd(n - 1);
    hide OddPart, Twos, Pow, Pow2;
    ChainFirst(a, u, n);
    if !IsWitness(a, n) {
      ChainPasses(a, u, n, t);
      assert StrongWith(a, n, u, t);
    }
    if StrongProbable(a, n) {
      var u', t' :| StrongWith(a, n, u', t');
      SplitUnique(n - 1, u', t');
      StrongNoWitness(a, n, u, t);
    }
  }

  lemma ChainFirst(a: nat, u: nat, n: nat)
    requires n >= 3
    ensures Chain(a, u, n, 0) == Pow(a, u) % n
  {
    assert u * Pow2(0) == u;
  }

  lemma ChainOf(a: nat, u: nat, n: nat, i: nat)
    requires n >= 3
    ensures Chain(a, u, n, i) == Pow(a, u * Pow2(i)) % n
  {
  }

  lemma StrongNoWitness(a: nat, n: nat, u: nat, t: nat)
    requires n >= 3 && u == OddPart(n - 1) && t == Twos(n - 1) && StrongWith(a, n, u, t)
    ensures !IsWitness(a, n)
  {
    hide OddPart, Twos, Pow, Pow2, OddRoot, Chain;
    if Pow(a, u) % n == 1 {
      ChainFirst(a, u, n);
      BeganWithOne(a, u, n, t);
    } else {
      var i: nat :| i < t && Pow(a, u * Pow2(i)) % n == n - 1;
      ChainOf(a, u, n, i);
      PassedMinusOne(a, u, n, t, i);
    }
  }

  lemma BeganWithOne(a: nat, u: nat, n: nat, t: nat)
    requires n >= 3 && Chain(a, u, n, 0) == 1
    ensures Chain(a, u, n, t) == 1 && forall j :: 0 <= j < t ==> !OddRoot(a, u, n, j)
  {
    hide Chain;
    OneStays(a, u, n, 0, t);
    forall j | 0 <= j < t ensures !OddRoot(a, u, n, j) { OneStays(a, u, n, 0, j); }
  }

  lemma PassedMinusOne(a: nat, u: nat, n: nat, t: nat, i: nat)
    requires n >= 3 && i < t && Chain(a, u, n, i) == n - 1
    ensures Chain(a, u, n, t) == 1 && forall j :: 0 <= j < t ==> !OddRoot(a, u, n, j)
  {
    hide Chain;
    MinusOneThenOne(a, u, n, i);
    OneStays(a, u, n, i + 1, t);
    forall j | 0 <= j < t ensures !OddRoot(a, u, n, j) {
      if j < i && Chain(a, u, n, j + 1) == 1 { OneStays(a, u, n, j + 1, i); }
      if j > i { OneStays(a, u, n, i + 1, j); }
    }
  }

  /** A strong probable prime passes Fermat's test. */
  lemma StrongPassesFermat(a: nat, n: nat)
    requires n >= 3 && StrongProbable(a, n)
    ensures Pow(a, n - 1) % n == 1
  {
    WitnessIs(a, n);
    ChainEnd(a, n);
  }

  /** The bases for which the test wants a strong probable prime. */
  function Bases(n: nat): seq<nat> { if n < TWO_BASES_LIMIT then [31, 73] else [2, 7, 61] }

  /** From the trial limit to 2 to the 32 the test accepts exactly the strong probable primes to its bases that 2 and 3 do not divide. */
  lemma AcceptsStrong(n: nat)
    requires TRIAL_LIMIT <= n < WORD
    ensures Halts(n)
    ensures Accepts(n) <==> n % 2 == 1 && n % 3 != 0 && forall i :: 0 <= i < |Bases(n)| ==> StrongProbable(Bases(n)[i], n)
    ensures Accepts(n) ==> forall i :: 0 <= i < |Bases(n)| ==> Pow(Bases(n)[i], n - 1) % n == 1
  {
    hide IsWitness, StrongProbable, Pow;
    var bs := Bases(n);
    forall i | 0 <= i < |bs| ensures IsWitness(bs[i], n) <==> !StrongProbable(bs[i], n) { WitnessIs(bs[i], n); }
    forall i | 0 <= i < |bs| && StrongProbable(bs[i], n) ensures Pow(bs[i], n - 1) % n == 1 { StrongPassesFermat(bs[i], n); }
    assert n < TWO_BASES_LIMIT ==> bs[0] == 31 && bs[1] == 73;
    assert n >= TWO_BASES_LIMIT ==> bs[0] == 2 && bs[1] == 7 && bs[2] == 61;
  }

  /** The composite 1373665 = 5 * 274733, just above the trial limit, is rejected. */
  lemma CompositeRejected()
    ensures !Prime(1373665) && Halts(1373665) && !Accepts(1373665)
  {
    assert 1373665 % 5 == 0;
    hide Prime, Pow, StrongProbable;
    FermatFails();
    AcceptsStrong(1373665);
    assert Bases(1373665)[0] == 31;
  }

  lemma FermatFails()
    ensures Pow(31, 1373664) % 1373665 == 601396
  {
    hide Pow, Cong;
    PowFirst(1373665, 31);
    PowTwice(1373665, 31, 1, 31, 961);
    PowTwice(1373665, 31, 2, 961, 923521); PowNext(1373665, 31, 4, 923521, 1155851);
    PowTwice(1373665, 31, 5, 1155851, 670491);
    PowTwice(1373665, 31, 10, 670491, 210196);
    PowTwice(1373665, 31, 20, 210196, 1171021); PowNext(1373665, 31, 40, 1171021, 586361);
    PowTwice(1373665, 31, 41, 586361, 488476); PowNext(1373665, 31, 82, 488476, 32441);
    PowTwice(1373665, 31, 83, 32441, 191091); PowNext(1373665, 31, 166, 191091, 429161);
    PowTwice(1373665, 31, 167, 429161, 908051); PowNext(1373665, 31, 334, 908051, 676281);
    PowTwice(1373665, 31, 335, 676281, 1097536);
    PowTwice(1373665, 31, 670, 1097536, 575151); PowNext(1373665, 31, 1340, 575151, 1345701);
    PowTwice(1373665, 31, 1341, 1345701, 369911);
    PowTwice(1373665, 31, 2682, 369911, 629941); PowNext(1373665, 31, 5364, 629941, 296861);
    PowTwice(1373665, 31, 5365, 296861, 348911); PowNext(1373665, 31, 10730, 348911, 1200586);
    PowTwice(1373665, 31, 10731, 1200586, 827586); PowNext(1373665, 31, 21462, 827586, 929196);
    PowTwice(1373665, 31, 21463, 929196, 433651); PowNext(1373665, 31, 42926, 433651, 1080196);
    PowTwice(1373665, 31, 42927, 1080196, 753121);
    PowTwice(1373665, 31, 85854, 753121, 841146);
    PowTwice(1373665, 31, 171708, 841146, 1203756);
    PowTwice(1373665, 31, 343416, 1203756, 124641);
    PowTwice(1373665, 31, 686832, 124641, 601396);
    CongSame(1373665, 601396, Pow(31, 1373664));
    SmallMod(601396, 1373665);
  }

  // ---------------------------------------------------------------------------------------
  // Above 32 bits
  // ---------------------------------------------------------------------------------------

  /** The variable `u` of the halving loop after `i` rounds. */
  function Halved(u: nat, i: nat): nat { if i == 0 then u else Halved(u / 2, i - 1) }

  /**
   Where the test does not halt, the low word is 1 and the loop that halves `u` until it is odd never meets an odd
   number. 2 to the 32 plus 1 is such an input, within the range that the comment at the test promises.
   */
  lemma {:induction false} HalvesForEver(n: nat, i: nat)
    requires n < LONG && !Halts(n)
    ensures Halved(n % WORD / 2, i) % 2 == 0
    ensures !Halts(WORD + 1) && WORD + 1 < 4759123141
  {
    assert n % WORD == 1;
    if i > 0 { HalvesForEver(n, i - 1); }
  }

  /** From `TWO_BASES_LIMIT` on the answer depends on the low word only. */
  lemma LowWordDecides(n: nat, m: nat)
    requires Halts(n) && Halts(m) && n >= TWO_BASES_LIMIT && m >= TWO_BASES_LIMIT && n % WORD == m % WORD
    requires n % 2 == 1 && n % 3 != 0 && m % 3 != 0
    ensures Accepts(n) <==> Accepts(m)
  {
    hide IsWitness;
    assert m % 2 == 1 by { LowWord(n); assert m % 2 == m % WORD % 2; }
  }

  /** There it accepts exactly the odd numbers, not multiples of 3, whose low word is a strong probable prime to 2, 7 and 61. */
  lemma AcceptsLowWord(n: nat)
    requires Halts(n) && n >= TWO_BASES_LIMIT
    ensures var m := n % WORD;
      Accepts(n) <==> n % 2 == 1 && n % 3 != 0 && m >= 3 && StrongProbable(2, m) && StrongProbable(7, m) && StrongProbable(61, m)
  {
    hide IsWitness, StrongProbable;
    var m := n % WORD;
    assert m % 2 == n % 2;
    if m >= 3 {
      WitnessIs(2, m);
      WitnessIs(7, m);
      WitnessIs(61, m);
    }
  }

  /** Above 2 to the 32, a number is accepted when its low word is a prime above 61, whatever the number is. */
  lemma AcceptsPrimeWord(n: nat)
    requires n < LONG && WORD <= n && n % 3 != 0 && Prime(n % WORD) && n % WORD > 61
    ensures Halts(n) && Accepts(n)
  {
    var m := n % WORD;
    assert m % 2 == 1;
    assert n % 2 == 1;
    PrimeHasNoWitness(m, 2);
    PrimeHasNoWitness(m, 7);
    PrimeHasNoWitness(m, 61);
  }

  /** 2 to the 32 plus 79 is divisible by 5 and accepted. */
  lemma CompositeAccepted()
    ensures var n := WORD + 79; n < 4759123141 && !Prime(n) && Halts(n) && Accepts(n)
  {
    assert (WORD + 79) % 5 == 0;
    forall k: nat | k >= 1 && 36 * k * k - 12 * k < 79 ensures NotBeside(79, k) {
      if k >= 2 { SquaresGrow(2, k); }
    }
    TrialExact(79);
    AcceptsPrimeWord(WORD + 79);
  }

  /** Rounds of a computed power. */
  lemma PowTwice(n: nat, a: nat, e: nat, v: nat, w: nat)
    requires n > 1 && Cong(n, v, Pow(a, e)) && w == v * v % n
    ensures Cong(n, w, Pow(a, 2 * e))
  {
    CongMul(n, v, Pow(a, e), v, Pow(a, e));
    CongMod(n, v * v);
    PowAdd(a, e, e);
    CongTrans(n, w, v * v, Pow(a, e) * Pow(a, e));
  }

  lemma PowNext(n: nat, a: nat, e: nat, v: nat, w: nat)
    requires n > 1 && Cong(n, v, Pow(a, e)) && w == v * a % n
    ensures Cong(n, w, Pow(a, e + 1))
  {
    CongRefl(n, a);
    CongMul(n, v, Pow(a, e), a, a);
    CongMod(n, v * a);
    CongTrans(n, w, v * a, Pow(a, e) * a);
    assert Pow(a, e + 1) == a * Pow(a, e);
  }

  lemma PowFirst(n: nat, b: nat)
    ensures Cong(n, b, Pow(b, 1))
  {
    assert Pow(b, 1) == b * Pow(b, 0) == b;
    CongRefl(n, b);
  }

  /** A prime from computed powers: b is a to the r and b to the q is one, modulo n. */
  lemma PrimeByPowers(n: nat, q: nat, r: nat, a: nat, b: nat, x: nat)
    requires Prime(q) && n == q * r + 1 && 2 <= n < q * q && b >= 1 && (b - 1) * x % n == 1
    requires Cong(n, b, Pow(a, r)) && Cong(n, 1, Pow(b, q))
    ensures Prime(n)
  {
    hide Prime, Pow, Cong;
    PowCong(n, b, Pow(a, r), q);
    PowMany(a, r, q);
    CongSym(n, Pow(b, q), Pow(Pow(a, r), q));
    CongSym(n, 1, Pow(b, q));
    CongTrans(n, Pow(a, r * q), Pow(b, q), 1);
    Inverse(n, b, Pow(a, r), x);
    Pocklington(n, q, r, a, x);
  }

  lemma Inverse(n: nat, b: nat, y: nat, x: nat)
    requires n > 1 && Cong(n, b, y) && b >= 1 && (b - 1) * x % n == 1
    ensures Cong(n, (y - 1) * x, 1)
  {
    var z := (b - 1) * x;
    CongMod(n, z);
    CongSym(n, b, y);
    assert Cong(n, y - 1, b - 1);
    CongRefl(n, x);
    CongMul(n, y - 1, b - 1, x, x);
    CongTrans(n, (y - 1) * x, z, 1);
  }

  lemma SmallPrime()
    ensures Prime(1423)
  {
    forall k: nat | k >= 1 && 36 * k * k - 12 * k < 1423 ensures NotBeside(1423, k) {
      if k >= 7 { SquaresGrow(7, k); }
    }
    TrialExact(1423);
  }

  lemma SquaresGrow(m: nat, k: nat)
    requires 1 <= m <= k
    ensures 36 * k * k - 12 * k >= 36 * m * m - 12 * m
  {
    assert 36 * k * k - 12 * k == k * (36 * k - 12) && 36 * m * m - 12 * m == m * (36 * m - 12);
    MulMono(m, k, 36 * k - 12);
    MulMono(36 * m - 12, 36 * k - 12, m);
  }

  lemma MiddlePrime()
    ensures Prime(364289)
  {
    hide Prime, Pow, Cong;
    PowSixteen(364289, 65536);
    PowTwice(364289, 2, 16, 65536, 364275);
    PowTwice(364289, 2, 32, 364275, 196);
    PowTwice(364289, 2, 64, 196, 38416);
    PowTwice(364289, 2, 128, 38416, 54317);
    PowFirst(364289, 54317);
    PowTwice(364289, 54317, 1, 54317, 324167);
    PowTwice(364289, 54317, 2, 324167, 346082); PowNext(364289, 54317, 4, 346082, 95016);
    PowTwice(364289, 54317, 5, 95016, 230258); PowNext(364289, 54317, 10, 230258, 153838);
    PowTwice(364289, 54317, 11, 153838, 95359);
    PowTwice(364289, 54317, 22, 95359, 321152);
    PowTwice(364289, 54317, 44, 321152, 12557);
    PowTwice(364289, 54317, 88, 12557, 305401); PowNext(364289, 54317, 176, 305401, 202213);
    PowTwice(364289, 54317, 177, 202213, 114275); PowNext(364289, 54317, 354, 114275, 319193);
    PowTwice(364289, 54317, 355, 319193, 188018); PowNext(364289, 54317, 710, 188018, 95880);
    PowTwice(364289, 54317, 711, 95880, 141485); PowNext(364289, 54317, 1422, 141485, 1);
    SmallPrime();
    PrimeByPowers(364289, 1423, 256, 2, 54317, 92199);
  }

  lemma PowSixteen(n: nat, w: nat)
    requires w == 65536
    ensures Cong(n, w, Pow(2, 16)) && Cong(n, 2048, Pow(2, 11)) && Pow(2, 16) == w
  {
    assert Pow(2, 4) == 16;
    PowAdd(2, 4, 4);
    PowAdd(2, 8, 8);
    PowAdd(2, 8, 3);
    assert Pow(2, 3) == 8;
    assert Pow(2, 16) == w;
    CongRefl(n, w);
    CongRefl(n, 2048);
  }

  /** The first half of the computation: 2 to the 11790. */
  lemma LongPowers()
    ensures Cong(4294967311, 2449819769, Pow(2, 11790))
  {
    hide Pow, Cong;
    PowSixteen(4294967311, 65536);
    PowTwice(4294967311, 2, 11, 2048, 4194304); PowNext(4294967311, 2, 22, 4194304, 8388608);
    PowTwice(4294967311, 2, 23, 8388608, 4294721551);
    PowTwice(4294967311, 2, 46, 4294721551, 268435246);
    PowTwice(4294967311, 2, 92, 268435246, 2969611737);
    PowTwice(4294967311, 2, 184, 2969611737, 1548872800);
    PowTwice(4294967311, 2, 368, 1548872800, 2073845370);
    PowTwice(4294967311, 2, 736, 2073845370, 71520221); PowNext(4294967311, 2, 1472, 71520221, 143040442);
    PowTwice(4294967311, 2, 1473, 143040442, 907949947); PowNext(4294967311, 2, 2946, 907949947, 1815899894);
    PowTwice(4294967311, 2, 2947, 1815899894, 351969845); PowNext(4294967311, 2, 5894, 351969845, 703939690);
    PowTwice(4294967311, 2, 5895, 703939690, 2449819769);
  }

  lemma LongPowersOn()
    ensures Cong(4294967311, 1, Pow(2449819769, 364289))
  {
    hide Pow, Cong;
    PowFirst(4294967311, 2449819769);
    PowTwice(4294967311, 2449819769, 1, 2449819769, 199746530);
    PowTwice(4294967311, 2449819769, 2, 199746530, 1885886726); PowNext(4294967311, 2449819769, 4, 1885886726, 3787083427);
    PowTwice(4294967311, 2449819769, 5, 3787083427, 964453694); PowNext(4294967311, 2449819769, 10, 964453694, 2460177613);
    PowTwice(4294967311, 2449819769, 11, 2460177613, 20484723);
    PowTwice(4294967311, 2449819769, 22, 20484723, 1275134718);
    PowTwice(4294967311, 2449819769, 44, 1275134718, 2206986602);
    PowTwice(4294967311, 2449819769, 88, 2206986602, 2463427730); PowNext(4294967311, 2449819769, 176, 2463427730, 1136651682);
    PowTwice(4294967311, 2449819769, 177, 1136651682, 861863018); PowNext(4294967311, 2449819769, 354, 861863018, 2842600434);
    PowTwice(4294967311, 2449819769, 355, 2842600434, 1055199492); PowNext(4294967311, 2449819769, 710, 1055199492, 2852330317);
    PowTwice(4294967311, 2449819769, 711, 2852330317, 1293775134); PowNext(4294967311, 2449819769, 1422, 1293775134, 2022124182);
    PowTwice(4294967311, 2449819769, 1423, 2022124182, 1041799867);
    PowTwice(4294967311, 2449819769, 2846, 1041799867, 312909048);
    PowTwice(4294967311, 2449819769, 5692, 312909048, 3179111074);
    PowTwice(4294967311, 2449819769, 11384, 3179111074, 1951448904);
    PowTwice(4294967311, 2449819769, 22768, 1951448904, 1127308846);
    PowTwice(4294967311, 2449819769, 45536, 1127308846, 1001825300);
    PowTwice(4294967311, 2449819769, 91072, 1001825300, 481047710);
    PowTwice(4294967311, 2449819769, 182144, 481047710, 519355213); PowNext(4294967311, 2449819769, 364288, 519355213, 1);
  }

  /** 2 to the 32 plus 15 is prime, by Pocklington's criterion with the factor 364289 of 2 to the 32 plus 14. */
  lemma FirstLongPrime()
    ensures Prime(WORD + 15)
  {
    hide Prime, Pow, Cong;
    MiddlePrime();
    LongPowers();
    LongPowersOn();
    PrimeByPowers(4294967311, 364289, 11790, 2, 2449819769, 1765941567);
  }

  /** And it is rejected, since 2 is a witness for 15. */
  lemma PrimeRejected()
    ensures var n := WORD + 15; n < 4759123141 && Prime(n) && Halts(n) && !Accepts(n)
  {
    hide Prime, IsWitness, NoSmallFactor;
    FirstLongPrime();
    WitnessFifteen();
  }

  lemma WitnessFifteen()
    ensures IsWitness(2, 15)
  {
    hide Pow, Chain, OddPart, Twos, OddRoot;
    ChainEnd(2, 15);
    TwoToFourteen();
  }

  lemma TwoToFourteen()
    ensures Pow(2, 14) == 16384
  {
    PowSixteen(2, 65536);
    assert Pow(2, 16) == 2 * Pow(2, 15) && Pow(2, 15) == 2 * Pow(2, 14);
  }
}
