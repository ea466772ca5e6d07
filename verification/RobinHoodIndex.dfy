/**
 The bucket index of the robin-hood hash table, as sequences: the ordering that makes the search stop
 early, and why shifting up for an insert and shifting down for an erase keep it.
 */
module RobinHoodIndex {

  /** `daf` is the distance-and-fingerprint word: 256 times the distance (from 1), plus a hash byte. 0 is empty. */
  datatype Bucket = Bucket(daf: nat, idx: nat)

  const DIST_INC: nat := 256
  const EMPTY: Bucket := Bucket(0, 0)

  /** A 64-bit hash of a key. */
  type Hash = x: nat | x < 0x1_0000_0000_0000_0000
  type Hasher<!K> = K -> Hash

  function First<K>(h: Hasher<K>, k: K): nat { DIST_INC + h(k) % DIST_INC }

  /** With `w` hashes to a bucket, the home bucket: `hash >> shifts` for `w` equal to 2 to the shifts. */
  function Home<K>(h: Hasher<K>, w: nat, k: K): nat
    requires w > 0
  {
    h(k) / w
  }

  // ---------------------------------------------------------------------------------------
  // The ring of n positions
  // ---------------------------------------------------------------------------------------

  function Next(p: nat, n: nat): nat { if p + 1 == n then 0 else p + 1 }

  function Prev(p: nat, n: nat): nat
    requires p < n
  {
    if p == 0 then n - 1 else p - 1
  }

  /** How many steps from `a` forward to `b`. */
  function Off(a: nat, b: nat, n: nat): nat
    requires a < n && b < n
  {
    if a <= b then b - a else b + n - a
  }

  function Fwd(a: nat, j: nat, n: nat): nat
    requires a < n && j < n
  {
    if a + j < n then a + j else a + j - n
  }

  function Back(a: nat, j: nat, n: nat): nat
    requires a < n && j < n
  {
    if j <= a then a - j else a + n - j
  }

  // ---------------------------------------------------------------------------------------
  // The invariant of the index
  // ---------------------------------------------------------------------------------------

  /** Every bucket knows how far its key is from home. */
  ghost predicate Placed<K, V>(bs: seq<Bucket>, vs: seq<(K, V)>, h: Hasher<K>, w: nat)
  {
    && w > 0 && (forall i :: 0 <= i < |vs| ==> Home(h, w, vs[i].0) < |bs|)
    && forall p :: 0 <= p < |bs| && bs[p].daf != 0 ==>
         bs[p].idx < |vs| &&
         var k := vs[bs[p].idx].0;
         bs[p].daf == First(h, k) + DIST_INC * Off(Home(h, w, k), p, |bs|)
  }

  /** A word grows by at most one distance from a bucket to the next, or starts anew at distance one. */
  ghost predicate Ordered(bs: seq<Bucket>)
  {
    forall p :: 0 <= p < |bs| ==> OrderedAt(bs, p)
  }

  ghost predicate OrderedAt(bs: seq<Bucket>, p: nat)
    requires p < |bs|
  {
    bs[Next(p, |bs|)].daf < 2 * DIST_INC || bs[Next(p, |bs|)].daf <= bs[p].daf + DIST_INC
  }

  /** `pos[i]` is the one bucket of value `i`. */
  ghost predicate Matched(bs: seq<Bucket>, pos: seq<nat>)
  {
    && (forall i :: 0 <= i < |pos| ==> pos[i] < |bs| && bs[pos[i]].daf != 0 && bs[pos[i]].idx == i)
    && (forall p :: 0 <= p < |bs| && bs[p].daf != 0 ==> bs[p].idx < |pos| && pos[bs[p].idx] == p)
  }

  ghost predicate Clean(bs: seq<Bucket>)
  {
    forall p :: 0 <= p < |bs| && bs[p].daf == 0 ==> bs[p] == EMPTY
  }

  ghost predicate DistinctKeys<K, V>(vs: seq<(K, V)>)
  {
    forall i, j :: 0 <= i < j < |vs| ==> vs[i].0 != vs[j].0
  }

  ghost predicate Index<K, V>(bs: seq<Bucket>, vs: seq<(K, V)>, pos: seq<nat>, h: Hasher<K>, w: nat)
  {
    && |bs| > 1 && |pos| == |vs| < |bs| && DistinctKeys(vs) && Clean(bs)
    && Placed(bs, vs, h, w) && Ordered(bs) && Matched(bs, pos)
  }

  // ---------------------------------------------------------------------------------------
  // Consequences of the ordering
  // ---------------------------------------------------------------------------------------

  /** Behind a bucket at distance more than `d`, the bucket `d` steps back is as tall. */
  lemma {:induction false} Chain(bs: seq<Bucket>, p: nat, d: nat)
    requires Ordered(bs) && p < |bs| && d < |bs| && bs[p].daf >= DIST_INC * d + DIST_INC
    ensures bs[Back(p, d, |bs|)].daf >= bs[p].daf - DIST_INC * d
  {
    if d > 0 {
      Chain(bs, p, d - 1);
      var q := Back(p, d, |bs|);
      assert Next(q, |bs|) == Back(p, d - 1, |bs|);
      assert OrderedAt(bs, q);
    }
  }

  /** Between the home of a stored key and its bucket there is no bucket shorter than the search word. */
  lemma NoGap<K, V>(bs: seq<Bucket>, vs: seq<(K, V)>, h: Hasher<K>, w: nat, p: nat, j: nat)
    requires Placed(bs, vs, h, w) && Ordered(bs) && p < |bs| && bs[p].daf != 0
    requires var k := vs[bs[p].idx].0; j <= Off(Home(h, w, k), p, |bs|)
    ensures var k := vs[bs[p].idx].0;
            bs[Fwd(Home(h, w, k), j, |bs|)].daf >= First(h, k) + DIST_INC * j
  {
    var k := vs[bs[p].idx].0;
    var m := Off(Home(h, w, k), p, |bs|);
    Chain(bs, p, m - j);
    assert Back(p, m - j, |bs|) == Fwd(Home(h, w, k), j, |bs|);
  }

  /** No bucket lies between an empty position and the home of its key: distances never wrap. */
  lemma NoWrap<K, V>(bs: seq<Bucket>, vs: seq<(K, V)>, h: Hasher<K>, w: nat, p: nat, z: nat)
    requires Placed(bs, vs, h, w) && Ordered(bs) && p < |bs| && bs[p].daf != 0 && z < |bs| && bs[z].daf == 0
    ensures var hm := Home(h, w, vs[bs[p].idx].0); Off(hm, p, |bs|) < Off(hm, z, |bs|)
  {
    var hm := Home(h, w, vs[bs[p].idx].0);
    if Off(hm, p, |bs|) >= Off(hm, z, |bs|) {
      NoGap(bs, vs, h, w, p, Off(hm, z, |bs|));
    }
  }

  ghost function Below(n: nat): (s: set<nat>)
    ensures |s| == n
    ensures forall p: nat :: p in s <==> p < n
  {
    if n == 0 then {} else
      var m: nat := n - 1;
      Below(m) + {m}
  }

  ghost function Elements(pos: seq<nat>): (s: set<nat>)
    ensures |s| <= |pos| && forall p :: p in s <==> p in pos
  {
    if pos == [] then {} else {pos[0]} + Elements(pos[1..])
  }

  /** With fewer values than buckets some bucket is empty. */
  lemma SomeEmpty(bs: seq<Bucket>, pos: seq<nat>) returns (z: nat)
    requires Matched(bs, pos) && |pos| < |bs|
    ensures z < |bs| && bs[z].daf == 0
  {
    var all, used := Below(|bs|), Elements(pos);
    if all <= used { SubsetSize(all, used); }
    z :| z in all && z !in used;
  }

  lemma {:induction false} SubsetSize(a: set<nat>, b: set<nat>)
    requires a <= b
    ensures |a| <= |b|
  {
    if a != {} {
      var x :| x in a;
      SubsetSize(a - {x}, b - {x});
    }
  }

  // ---------------------------------------------------------------------------------------
  // Search
  // ---------------------------------------------------------------------------------------

  /** The position that holds key `k`. */
  ghost predicate Stores<K, V>(bs: seq<Bucket>, vs: seq<(K, V)>, p: nat, k: K)
  {
    p < |bs| && bs[p].daf != 0 && bs[p].idx < |vs| && vs[bs[p].idx].0 == k
  }

  /** No key equal to `k` within the first `j` positions from its home. */
  ghost predicate NotWithin<K, V>(bs: seq<Bucket>, vs: seq<(K, V)>, h: Hasher<K>, w: nat, k: K, j: nat)
    requires w > 0 && Home(h, w, k) < |bs|
  {
    forall p :: 0 <= p < |bs| && Off(Home(h, w, k), p, |bs|) < j ==> !Stores(bs, vs, p, k)
  }

  /** The search word at `j` steps from home. */
  function Word<K>(h: Hasher<K>, k: K, j: nat): nat { First(h, k) + DIST_INC * j }

  /** A bucket shorter than the search word ends the search: the key is not in the table. */
  lemma StopIsRight<K, V>(bs: seq<Bucket>, vs: seq<(K, V)>, h: Hasher<K>, w: nat, k: K, j: nat)
    requires Placed(bs, vs, h, w) && Ordered(bs) && w > 0 && Home(h, w, k) < |bs| && j < |bs|
    requires NotWithin(bs, vs, h, w, k, j)
    requires bs[Fwd(Home(h, w, k), j, |bs|)].daf < Word(h, k, j)
    ensures forall p :: !Stores(bs, vs, p, k)
  {
    forall p | Stores(bs, vs, p, k) ensures false {
      NoGap(bs, vs, h, w, p, j);
    }
  }

  /** A bucket whose word differs from the search word does not hold the key. */
  lemma WordDiffers<K, V>(bs: seq<Bucket>, vs: seq<(K, V)>, h: Hasher<K>, w: nat, k: K, j: nat)
    requires Placed(bs, vs, h, w) && w > 0 && Home(h, w, k) < |bs| && j < |bs|
    requires NotWithin(bs, vs, h, w, k, j)
    requires var p := Fwd(Home(h, w, k), j, |bs|); bs[p].daf != Word(h, k, j) || !Stores(bs, vs, p, k)
    ensures NotWithin(bs, vs, h, w, k, j + 1)
  {
  }

  // ---------------------------------------------------------------------------------------
  // Insertion: shift up
  // ---------------------------------------------------------------------------------------

  function Up(b: Bucket): Bucket { b.(daf := b.daf + DIST_INC) }

  /** `b` goes to position `s`; the `e` full buckets from there move one up, into the empty one. */
  ghost function ShiftUp(bs: seq<Bucket>, b: Bucket, s: nat, e: nat): seq<Bucket>
    requires s < |bs| && e < |bs|
  {
    var n := |bs|;
    seq(n, q requires 0 <= q < n =>
      var o := Off(s, q, n);
      if o == 0 then b else if o <= e then Up(bs[Prev(q, n)]) else bs[q])
  }

  /** `e` is the number of full buckets from `s` on. */
  ghost predicate Run(bs: seq<Bucket>, s: nat, e: nat)
  {
    && s < |bs| && e < |bs| && bs[Fwd(s, e, |bs|)].daf == 0
    && forall o :: 0 <= o < e ==> bs[Fwd(s, o, |bs|)].daf != 0
  }

  /** Where a search for the absent key `k` has come to stop, `j` steps from home. */
  ghost predicate StopsAt<K>(bs: seq<Bucket>, h: Hasher<K>, w: nat, k: K, j: nat)
  {
    && w > 0 && Home(h, w, k) < |bs| && j < |bs|
    && (forall i :: 0 <= i < j ==> bs[Fwd(Home(h, w, k), i, |bs|)].daf >= Word(h, k, i))
    && bs[Fwd(Home(h, w, k), j, |bs|)].daf <= Word(h, k, j)
  }

  lemma ShiftUpOrdered<K>(bs: seq<Bucket>, h: Hasher<K>, w: nat, k: K, j: nat, e: nat, i: nat)
    requires Ordered(bs) && |bs| > 1 && StopsAt(bs, h, w, k, j) && Run(bs, Fwd(Home(h, w, k), j, |bs|), e)
    requires forall p :: 0 <= p < |bs| && bs[p].daf != 0 ==> bs[p].daf >= DIST_INC
    ensures Ordered(ShiftUp(bs, Bucket(Word(h, k, j), i), Fwd(Home(h, w, k), j, |bs|), e))
  {
    var n, s := |bs|, Fwd(Home(h, w, k), j, |bs|);
    var bs' := ShiftUp(bs, Bucket(Word(h, k, j), i), s, e);
    forall p | 0 <= p < n ensures OrderedAt(bs', p) {
      var q := Next(p, n);
      var o := Off(s, q, n);
      assert OrderedAt(bs, p);
      if o == 0 {
        if j > 0 { assert p == Fwd(Home(h, w, k), j - 1, n); }
      } else if o <= e {
        assert Prev(q, n) == p && p == Fwd(s, o - 1, n);
        assert Off(s, p, n) == o - 1;
        if o > 1 {
          var r := Prev(p, n);
          assert Next(r, n) == p && OrderedAt(bs, r);
          assert r == Fwd(s, o - 2, n);
        }
      } else {
        assert Off(s, p, n) == o - 1;
        if o - 1 == e { assert p == Fwd(s, e, n); }
      }
    }
  }

  lemma ShiftUpPlaced<K, V>(bs: seq<Bucket>, vs: seq<(K, V)>, h: Hasher<K>, w: nat, k: K, v: V, j: nat, e: nat)
    requires Placed(bs, vs, h, w) && Ordered(bs) && |bs| > 1
    requires StopsAt(bs, h, w, k, j) && Run(bs, Fwd(Home(h, w, k), j, |bs|), e)
    ensures Placed(ShiftUp(bs, Bucket(Word(h, k, j), |vs|), Fwd(Home(h, w, k), j, |bs|), e), vs + [(k, v)], h, w)
  {
    var n, s := |bs|, Fwd(Home(h, w, k), j, |bs|);
    var vs' := vs + [(k, v)];
    var bs' := ShiftUp(bs, Bucket(Word(h, k, j), |vs|), s, e);
    forall q | 0 <= q < n && bs'[q].daf != 0
      ensures bs'[q].idx < |vs'| &&
              bs'[q].daf == First(h, vs'[bs'[q].idx].0) + DIST_INC * Off(Home(h, w, vs'[bs'[q].idx].0), q, n)
    {
      var o := Off(s, q, n);
      if o == 0 {
        assert Off(Home(h, w, k), s, n) == j;
      } else if o <= e {
        var p := Prev(q, n);
        assert p == Fwd(s, o - 1, n);
        NoWrap(bs, vs, h, w, p, Fwd(s, e, n));
      }
    }
  }

  ghost function ShiftPos(pos: seq<nat>, s: nat, e: nat, n: nat): seq<nat>
    requires s < n && forall i :: 0 <= i < |pos| ==> pos[i] < n
  {
    seq(|pos|, i requires 0 <= i < |pos| => if Off(s, pos[i], n) < e then Next(pos[i], n) else pos[i]) + [s]
  }

  lemma ShiftUpMatched(bs: seq<Bucket>, pos: seq<nat>, d: nat, s: nat, e: nat)
    requires Matched(bs, pos) && Run(bs, s, e) && d > 0 && |bs| > 1
    ensures Matched(ShiftUp(bs, Bucket(d, |pos|), s, e), ShiftPos(pos, s, e, |bs|))
  {
    var n := |bs|;
    var bs', pos' := ShiftUp(bs, Bucket(d, |pos|), s, e), ShiftPos(pos, s, e, n);
    forall i | 0 <= i < |pos'| ensures pos'[i] < n && bs'[pos'[i]].daf != 0 && bs'[pos'[i]].idx == i {
      if i < |pos| {
        var p := pos[i];
        if Off(s, p, n) < e {
          assert Prev(Next(p, n), n) == p && Off(s, Next(p, n), n) == Off(s, p, n) + 1;
        }
      }
    }
    forall q | 0 <= q < n && bs'[q].daf != 0 ensures bs'[q].idx < |pos'| && pos'[bs'[q].idx] == q {
      var o := Off(s, q, n);
      if 0 < o <= e {
        var p := Prev(q, n);
        assert p == Fwd(s, o - 1, n) && Off(s, p, n) == o - 1 && Next(p, n) == q;
      }
    }
  }

  /** Inserting an absent key where its search stops keeps the index. */
  lemma InsertKeeps<K, V>(bs: seq<Bucket>, vs: seq<(K, V)>, pos: seq<nat>, h: Hasher<K>, w: nat, k: K, v: V, j: nat, e: nat)
    requires Index(bs, vs, pos, h, w) && |vs| + 1 < |bs|
    requires forall i :: 0 <= i < |vs| ==> vs[i].0 != k
    requires StopsAt(bs, h, w, k, j) && Run(bs, Fwd(Home(h, w, k), j, |bs|), e)
    ensures var s := Fwd(Home(h, w, k), j, |bs|);
            Index(ShiftUp(bs, Bucket(Word(h, k, j), |vs|), s, e), vs + [(k, v)], ShiftPos(pos, s, e, |bs|), h, w)
  {
    var s := Fwd(Home(h, w, k), j, |bs|);
    ShiftUpOrdered(bs, h, w, k, j, e, |vs|);
    ShiftUpPlaced(bs, vs, h, w, k, v, j, e);
    ShiftUpMatched(bs, pos, Word(h, k, j), s, e);
  }

  // ---------------------------------------------------------------------------------------
  // Erasure: shift down, then let the last value fill the hole
  // ---------------------------------------------------------------------------------------

  function Down(b: Bucket): Bucket { if b.daf >= DIST_INC then b.(daf := b.daf - DIST_INC) else b }

  /** The bucket at `s` goes; the `e` buckets behind it that are not at distance one move back over it. */
  ghost function ShiftDown(bs: seq<Bucket>, s: nat, e: nat): seq<Bucket>
    requires s < |bs| && e < |bs|
  {
    var n := |bs|;
    seq(n, q requires 0 <= q < n =>
      var o := Off(s, q, n);
      if o < e then Down(bs[Next(q, n)]) else if o == e then EMPTY else bs[q])
  }

  /** `e` buckets behind `s` are at distance two or more, and the next one is not. */
  ghost predicate Tail(bs: seq<Bucket>, s: nat, e: nat)
  {
    && s < |bs| && e + 1 < |bs| && bs[Fwd(s, e + 1, |bs|)].daf < 2 * DIST_INC
    && forall o :: 1 <= o <= e ==> bs[Fwd(s, o, |bs|)].daf >= 2 * DIST_INC
  }

  lemma ShiftDownOrdered(bs: seq<Bucket>, s: nat, e: nat)
    requires Ordered(bs) && Tail(bs, s, e)
    ensures Ordered(ShiftDown(bs, s, e))
  {
    var n := |bs|;
    var bs' := ShiftDown(bs, s, e);
    forall p | 0 <= p < n ensures OrderedAt(bs', p) {
      var q := Next(p, n);
      var o := Off(s, q, n);
      assert OrderedAt(bs, p);
      if o < e {
        assert Next(q, n) == Fwd(s, o + 1, n);
        assert OrderedAt(bs, q);
        if o > 0 {
          assert Off(s, p, n) == o - 1;
          assert q == Fwd(s, o, n);
        }
      } else if o == e + 1 {
        assert q == Fwd(s, e + 1, n);
      } else if o > e + 1 {
        assert Off(s, p, n) == o - 1;
      }
    }
  }

  lemma ShiftDownPlaced<K, V>(bs: seq<Bucket>, vs: seq<(K, V)>, h: Hasher<K>, w: nat, s: nat, e: nat)
    requires Placed(bs, vs, h, w) && Tail(bs, s, e)
    ensures Placed(ShiftDown(bs, s, e), vs, h, w)
  {
    var n := |bs|;
    var bs' := ShiftDown(bs, s, e);
    forall q | 0 <= q < n && bs'[q].daf != 0
      ensures bs'[q].idx < |vs| &&
              bs'[q].daf == First(h, vs[bs'[q].idx].0) + DIST_INC * Off(Home(h, w, vs[bs'[q].idx].0), q, n)
    {
      var o := Off(s, q, n);
      if o < e {
        assert Next(q, n) == Fwd(s, o + 1, n);
        assert bs[Next(q, n)].daf >= 2 * DIST_INC;
      }
    }
  }

  ghost function PosDown(p: nat, s: nat, e: nat, n: nat): nat
    requires p < n && s < n
  {
    if 1 <= Off(s, p, n) <= e then Prev(p, n) else p
  }

  /** After the shift, every value but the one at `s` has exactly its bucket. */
  lemma ShiftDownMatched(bs: seq<Bucket>, pos: seq<nat>, s: nat, e: nat)
    requires Matched(bs, pos) && Tail(bs, s, e) && bs[s].daf != 0
    ensures var bs' := ShiftDown(bs, s, e);
            && (forall i :: 0 <= i < |pos| && i != bs[s].idx ==>
                  var p := PosDown(pos[i], s, e, |bs|); p < |bs| && bs'[p].daf != 0 && bs'[p].idx == i)
            && (forall q :: 0 <= q < |bs| && bs'[q].daf != 0 ==>
                  bs'[q].idx < |pos| && bs'[q].idx != bs[s].idx && PosDown(pos[bs'[q].idx], s, e, |bs|) == q)
  {
    var n := |bs|;
    var bs' := ShiftDown(bs, s, e);
    forall i | 0 <= i < |pos| && i != bs[s].idx
      ensures var p := PosDown(pos[i], s, e, n); p < n && bs'[p].daf != 0 && bs'[p].idx == i
    {
      var p := pos[i];
      var o := Off(s, p, n);
      if 1 <= o <= e {
        assert Next(Prev(p, n), n) == p && Off(s, Prev(p, n), n) == o - 1 && p == Fwd(s, o, n);
      }
    }
    forall q | 0 <= q < n && bs'[q].daf != 0
      ensures bs'[q].idx < |pos| && bs'[q].idx != bs[s].idx && PosDown(pos[bs'[q].idx], s, e, n) == q
    {
      var o := Off(s, q, n);
      if o < e {
        var p := Next(q, n);
        assert p == Fwd(s, o + 1, n) && Off(s, p, n) == o + 1 && Prev(p, n) == q;
      }
    }
  }

  /** The bucket of value `last` now belongs to value `r`. */
  ghost function Renumber(bs: seq<Bucket>, last: nat, r: nat): seq<Bucket>
  {
    seq(|bs|, q requires 0 <= q < |bs| =>
      if bs[q].daf != 0 && bs[q].idx == last then bs[q].(idx := r) else bs[q])
  }

  ghost function RemoveSwap<T>(vs: seq<T>, r: nat): seq<T>
    requires r < |vs|
  {
    vs[r := vs[|vs| - 1]][..|vs| - 1]
  }

  ghost function ErasePos(pos: seq<nat>, s: nat, e: nat, n: nat, r: nat): seq<nat>
    requires r < |pos| && s < n && forall i :: 0 <= i < |pos| ==> pos[i] < n
  {
    seq<nat>(|pos| - 1, i requires 0 <= i < |pos| - 1 => PosDown(pos[if i == r then |pos| - 1 else i], s, e, n))
  }

  lemma EraseMatched(bs: seq<Bucket>, pos: seq<nat>, s: nat, e: nat)
    requires Matched(bs, pos) && Tail(bs, s, e) && bs[s].daf != 0
    ensures Matched(Renumber(ShiftDown(bs, s, e), |pos| - 1, bs[s].idx), ErasePos(pos, s, e, |bs|, bs[s].idx))
  {
    ShiftDownMatched(bs, pos, s, e);
  }

  lemma ErasePlaced<K, V>(bs: seq<Bucket>, vs: seq<(K, V)>, pos: seq<nat>, h: Hasher<K>, w: nat, s: nat, e: nat)
    requires Placed(bs, vs, h, w) && Matched(bs, pos) && |pos| == |vs| && Tail(bs, s, e) && bs[s].daf != 0
    ensures Placed(Renumber(ShiftDown(bs, s, e), |vs| - 1, bs[s].idx), RemoveSwap(vs, bs[s].idx), h, w)
  {
    ShiftDownPlaced(bs, vs, h, w, s, e);
    ShiftDownMatched(bs, pos, s, e);
  }

  lemma RenumberOrdered(bs: seq<Bucket>, last: nat, r: nat)
    requires Ordered(bs)
    ensures Ordered(Renumber(bs, last, r))
  {
    var bs' := Renumber(bs, last, r);
    forall p | 0 <= p < |bs| ensures OrderedAt(bs', p) { assert OrderedAt(bs, p); }
  }

  /** Erasing a stored key by shifting down and filling the hole keeps the index. */
  lemma EraseKeeps<K, V>(bs: seq<Bucket>, vs: seq<(K, V)>, pos: seq<nat>, h: Hasher<K>, w: nat, s: nat, e: nat)
    requires Index(bs, vs, pos, h, w) && Tail(bs, s, e) && bs[s].daf != 0
    ensures Index(Renumber(ShiftDown(bs, s, e), |vs| - 1, bs[s].idx), RemoveSwap(vs, bs[s].idx),
                  ErasePos(pos, s, e, |bs|, bs[s].idx), h, w)
  {
    hide Placed, Ordered, Clean;
    EraseShape(bs, s, e, |vs| - 1);
    ErasePlaced(bs, vs, pos, h, w, s, e);
    EraseMatched(bs, pos, s, e);
    RemoveSwapDistinct(vs, bs[s].idx);
  }

  lemma EraseShape(bs: seq<Bucket>, s: nat, e: nat, last: nat)
    requires Ordered(bs) && Clean(bs) && Tail(bs, s, e)
    ensures var bs' := Renumber(ShiftDown(bs, s, e), last, bs[s].idx); Ordered(bs') && Clean(bs')
  {
    ShiftDownOrdered(bs, s, e);
    RenumberOrdered(ShiftDown(bs, s, e), last, bs[s].idx);
    var n, bs' := |bs|, ShiftDown(bs, s, e);
    forall q | 0 <= q < n && Off(s, q, n) < e ensures bs'[q].daf >= DIST_INC {
      assert Next(q, n) == Fwd(s, Off(s, q, n) + 1, n);
    }
  }

  lemma RemoveSwapDistinct<K, V>(vs: seq<(K, V)>, r: nat)
    requires DistinctKeys(vs) && r < |vs|
    ensures DistinctKeys(RemoveSwap(vs, r))
  {
  }

  /**
   The word of a bucket, or of a probe, fits in 32 bits if and only if its distance is below 2^24; so all of them do in a
   table of fewer than 2^24 buckets.
   */
  lemma WordsFit<K, V>(bs: seq<Bucket>, vs: seq<(K, V)>, h: Hasher<K>, w: nat, p: nat, k: K, j: nat)
    requires Placed(bs, vs, h, w) && p < |bs|
    ensures Word(h, k, j) < 0x1_0000_0000 <==> j + 1 < 0x100_0000
    ensures bs[p].daf != 0 ==>
      (bs[p].daf < 0x1_0000_0000 <==> Off(Home(h, w, vs[bs[p].idx].0), p, |bs|) + 1 < 0x100_0000)
    ensures |bs| + 2 < 0x100_0000 && j <= |bs| + 1 ==> bs[p].daf < 0x1_0000_0000 && Word(h, k, j) < 0x1_0000_0000
  {
  }
}
