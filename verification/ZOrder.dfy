/**
 The order of the connections of a signal: the comparison that finds the more significant differing word with three
 exclusive ors is the comparison of the interleaved bits, so binary search over the connections is sound.
 */
module ZOrder {
  import opened Bits

  /** `Delegate_Key`: two machine words. */
  datatype Key = Key(first: nat, second: nat)

  /** The highest bit of `x` is below the highest bit of `y`. */
  predicate TopBelow(x: nat, y: nat) { x < y && x < Xor(x, y) }

  /** `Z_Order`. */
  predicate Less(l: Key, r: Key) {
    if TopBelow(Xor(l.first, r.first), Xor(l.second, r.second)) then l.second < r.second else l.first < r.first
  }

  /** The bits of both words interleaved, those of the first word above those of the second. */
  function Morton(a: nat, b: nat): nat
    decreases a + b
  {
    if a == 0 && b == 0 then 0 else 4 * Morton(a / 2, b / 2) + 2 * (a % 2) + b % 2
  }

  function Code(k: Key): nat { Morton(k.first, k.second) }

  function Half(k: Key): Key { Key(k.first / 2, k.second / 2) }

  lemma MortonStep(a: nat, b: nat)
    ensures Morton(a, b) == 4 * Morton(a / 2, b / 2) + 2 * (a % 2) + b % 2
  {
  }

  /** Different keys have different codes. */
  lemma {:induction false} CodeInjective(l: Key, r: Key)
    ensures Code(l) == Code(r) <==> l == r
    decreases l.first + l.second + r.first + r.second
  {
    if l != Key(0, 0) || r != Key(0, 0) {
      CodeInjective(Half(l), Half(r));
      MortonStep(l.first, l.second);
      MortonStep(r.first, r.second);
    }
  }

  /** The highest bits compare as those of the halves do, unless both halves are zero. */
  lemma TopHalves(x: nat, y: nat)
    requires x / 2 != 0 || y / 2 != 0
    ensures TopBelow(x, y) <==> TopBelow(x / 2, y / 2)
  {
    XorStep(x, y);
    XorCancels(x / 2, y / 2);
    hide Xor;
  }

  lemma XorCancels(x: nat, y: nat)
    ensures Xor(x, y) == x <==> y == 0
    ensures x == y ==> Xor(x, y) == 0
    ensures x == 0 ==> Xor(x, y) == y
  {
    if Xor(x, y) == x {
      XorComm(x, y);
      XorAssoc(y, x, x);
      XorSelf(x);
      XorComm(y, 0);
    }
    XorComm(x, 0);
    XorZero(x, y);
  }

  /** Keys whose halves differ compare as their halves do. */
  lemma LessHalves(l: Key, r: Key)
    requires Half(l) != Half(r)
    ensures Less(l, r) <==> Less(Half(l), Half(r))
  {
    var x, y := Xor(l.first, r.first), Xor(l.second, r.second);
    XorStep(l.first, r.first);
    XorStep(l.second, r.second);
    XorZero(l.first / 2, r.first / 2);
    XorZero(l.second / 2, r.second / 2);
    TopHalves(x, y);
    XorCancels(x / 2, y / 2);
    hide Xor;
    if TopBelow(x, y) {
      assert l.second / 2 != r.second / 2;
    } else {
      assert l.first / 2 != r.first / 2;
    }
  }

  /** Keys that differ in their lowest bits only. */
  lemma LessLowest(l: Key, r: Key)
    requires Half(l) == Half(r)
    ensures Less(l, r) <==> 2 * (l.first % 2) + l.second % 2 < 2 * (r.first % 2) + r.second % 2
  {
    hide Xor;
    XorStep(l.first, r.first);
    XorStep(l.second, r.second);
    XorSelf(l.first / 2);
    XorSelf(l.second / 2);
    var x, y := Xor(l.first, r.first), Xor(l.second, r.second);
    XorCancels(x, y);
    LastBits(l.first, r.first, x);
    LastBits(l.second, r.second, y);
  }

  lemma LastBits(a: nat, b: nat, x: nat)
    requires a / 2 == b / 2 && x / 2 == 0 && x % 2 == (a + b) % 2
    ensures x == if a % 2 == b % 2 then 0 else 1
    ensures a < b <==> a % 2 < b % 2
  {
    var q := a / 2;
    assert a == 2 * q + a % 2 && b == 2 * q + b % 2 && x == x % 2;
    assert a + b == 2 * (2 * q) + (a % 2 + b % 2);
  }

  /** `Z_Order` is the comparison of the interleaved bits. */
  lemma {:induction false} LessIsMorton(l: Key, r: Key)
    ensures Less(l, r) <==> Code(l) < Code(r)
    decreases l.first + l.second + r.first + r.second
  {
    hide Less;
    MortonStep(l.first, l.second);
    MortonStep(r.first, r.second);
    CodeInjective(Half(l), Half(r));
    if Half(l) == Half(r) {
      LessLowest(l, r);
    } else {
      LessHalves(l, r);
      LessIsMorton(Half(l), Half(r));
    }
  }

  /** So it is a strict total order. */
  lemma StrictTotalOrder(a: Key, b: Key, c: Key)
    ensures !Less(a, a)
    ensures Less(a, b) && Less(b, c) ==> Less(a, c)
    ensures Less(a, b) || Less(b, a) || a == b
    ensures !(Less(a, b) && Less(b, a))
  {
    LessIsMorton(a, a);
    LessIsMorton(a, b);
    LessIsMorton(b, a);
    LessIsMorton(b, c);
    LessIsMorton(a, c);
    CodeInjective(a, b);
  }

  // ---------------------------------------------------------------------------------------
  // The sorted connections
  // ---------------------------------------------------------------------------------------

  type Observed = nat

  datatype Connection = Connection(delegate: Key, observer: Observed)

  /** No connection comes before an earlier one. */
  ghost predicate Sorted(s: seq<Connection>) {
    forall i, j :: 0 <= i < j < |s| ==> !Less(s[j].delegate, s[i].delegate)
  }

  /** The connections of `s` with a key other than `k`. */
  ghost function Others(s: seq<Connection>, k: Key): seq<Connection> {
    if s == [] then [] else
      var rest := Others(s[..|s| - 1], k);
      if s[|s| - 1].delegate == k then rest else rest + [s[|s| - 1]]
  }

  /** Everything before `n` is below or at `k`, everything from `n` on is above. */
  ghost predicate UpperAt(s: seq<Connection>, k: Key, n: nat) {
    && n <= |s| && (forall i :: 0 <= i < n ==> !Less(k, s[i].delegate))
    && (forall i :: n <= i < |s| ==> Less(k, s[i].delegate))
  }

  ghost predicate LowerAt(s: seq<Connection>, k: Key, n: nat) {
    && n <= |s| && (forall i :: 0 <= i < n ==> Less(s[i].delegate, k))
    && (forall i :: n <= i < |s| ==> !Less(s[i].delegate, k))
  }

  lemma UpperSpreads(s: seq<Connection>, k: Key, m: nat)
    requires Sorted(s) && m < |s|
    ensures Less(k, s[m].delegate) ==> forall i :: m <= i < |s| ==> Less(k, s[i].delegate)
    ensures !Less(k, s[m].delegate) ==> forall i :: 0 <= i <= m ==> !Less(k, s[i].delegate)
  {
    forall i | 0 <= i < |s| ensures i >= m && Less(k, s[m].delegate) ==> Less(k, s[i].delegate)
                            ensures i <= m && !Less(k, s[m].delegate) ==> !Less(k, s[i].delegate)
    {
      StrictTotalOrder(k, s[m].delegate, s[i].delegate);
      StrictTotalOrder(k, s[i].delegate, s[m].delegate);
      StrictTotalOrder(s[m].delegate, s[i].delegate, k);
    }
  }

  lemma LowerSpreads(s: seq<Connection>, k: Key, m: nat)
    requires Sorted(s) && m < |s|
    ensures !Less(s[m].delegate, k) ==> forall i :: m <= i < |s| ==> !Less(s[i].delegate, k)
    ensures Less(s[m].delegate, k) ==> forall i :: 0 <= i <= m ==> Less(s[i].delegate, k)
  {
    forall i | 0 <= i < |s| ensures i >= m && !Less(s[m].delegate, k) ==> !Less(s[i].delegate, k)
                            ensures i <= m && Less(s[m].delegate, k) ==> Less(s[i].delegate, k)
    {
      StrictTotalOrder(s[m].delegate, s[i].delegate, k);
      StrictTotalOrder(s[i].delegate, s[m].delegate, k);
      StrictTotalOrder(s[i].delegate, k, s[m].delegate);
    }
  }

  method UpperBound(s: seq<Connection>, k: Key) returns (n: nat)
    requires Sorted(s)
    ensures UpperAt(s, k, n)
  {
    hide Less;
    var count: nat := |s|;
    n := 0;
    while count > 0
      invariant n + count <= |s|
      invariant forall i :: 0 <= i < n ==> !Less(k, s[i].delegate)
      invariant forall i :: n + count <= i < |s| ==> Less(k, s[i].delegate)
    {
      var step: nat := count / 2;
      UpperSpreads(s, k, n + step);
      if !Less(k, s[n + step].delegate) {
        n, count := n + step + 1, count - step - 1;
      } else {
        count := step;
      }
    }
  }

  method LowerBound(s: seq<Connection>, k: Key) returns (n: nat)
    requires Sorted(s)
    ensures LowerAt(s, k, n)
  {
    hide Less;
    var count: nat := |s|;
    n := 0;
    while count > 0
      invariant n + count <= |s|
      invariant forall i :: 0 <= i < n ==> Less(s[i].delegate, k)
      invariant forall i :: n + count <= i < |s| ==> !Less(s[i].delegate, k)
    {
      var step: nat := count / 2;
      LowerSpreads(s, k, n + step);
      if Less(s[n + step].delegate, k) {
        n, count := n + step + 1, count - step - 1;
      } else {
        count := step;
      }
    }
  }

  /** Putting a connection at the upper bound of its key keeps the order. */
  lemma InsertSorted(s: seq<Connection>, c: Connection, n: nat)
    requires Sorted(s) && UpperAt(s, c.delegate, n)
    ensures Sorted(s[..n] + [c] + s[n..])
  {
    hide Less;
    var t := s[..n] + [c] + s[n..];
    forall i, j | 0 <= i < j < |t| ensures !Less(t[j].delegate, t[i].delegate) {
      StrictTotalOrder(t[i].delegate, t[j].delegate, t[i].delegate);
    }
  }

  lemma {:induction false} OthersSplit(s: seq<Connection>, k: Key, a: nat, b: nat)
    requires a <= b <= |s|
    requires forall i :: 0 <= i < |s| ==> (s[i].delegate == k <==> a <= i < b)
    ensures Others(s, k) == s[..a] + s[b..]
  {
    if s != [] {
      var n := |s| - 1;
      var t := s[..n];
      if a <= n < b {
        OthersSplit(t, k, a, n);
        assert t[..a] + t[n..] == s[..a] + s[b..];
      } else if b <= n {
        OthersSplit(t, k, a, b);
        assert t[..a] + t[b..] + [s[n]] == s[..a] + s[b..];
      } else {
        OthersSplit(t, k, n, n);
        assert t[..n] + t[n..] + [s[n]] == s[..a] + s[b..];
      }
    }
  }

  /** Between the bounds are exactly the connections of the key. */
  lemma RangeIsKey(s: seq<Connection>, k: Key, a: nat, b: nat)
    requires LowerAt(s, k, a) && UpperAt(s, k, b)
    ensures a <= b && forall i :: 0 <= i < |s| ==> (s[i].delegate == k <==> a <= i < b)
  {
    hide Less;
    forall i | 0 <= i < |s| ensures s[i].delegate == k <==> a <= i < b {
      StrictTotalOrder(s[i].delegate, k, k);
    }
    if b < a { StrictTotalOrder(s[b].delegate, k, k); }
  }

  class Observer {
    var connections: seq<Connection>

    ghost predicate Valid()
      reads this
    {
      Sorted(connections)
    }

    constructor ()
      ensures Valid() && connections == []
    {
      connections := [];
    }

    /** `nolock_insert`: behind all connections of the same key. */
    method Insert(c: Connection)
      requires Valid()
      modifies this
      ensures Valid()
      ensures exists n: nat :: UpperAt(old(connections), c.delegate, n)
                && connections == old(connections)[..n] + [c] + old(connections)[n..]
    {
      hide Less;
      var n: nat := UpperBound(connections, c.delegate);
      InsertSorted(connections, c, n);
      connections := connections[..n] + [c] + connections[n..];
    }

    /** `remove`: the equal range of the key is erased. */
    method Remove(k: Key)
      requires Valid()
      modifies this
      ensures Valid() && connections == Others(old(connections), k)
    {
      hide Less;
      var a := LowerBound(connections, k);
      var b := UpperBound(connections, k);
      RangeIsKey(connections, k, a, b);
      OthersSplit(connections, k, a, b);
      connections := connections[..a] + connections[b..];
    }
  }
}
