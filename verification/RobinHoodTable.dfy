/**
 The robin-hood hash table itself: dense values, a bucket array changed in place, growth by rehashing.
 Every operation is proved against the map the values stand for.
 */
module RobinHoodTable {
  import opened Bits
  import opened RobinHoodIndex

  datatype Maybe<+V> = Missing | Found(value: V)

  // ---------------------------------------------------------------------------------------
  // The map that a list of values stands for
  // ---------------------------------------------------------------------------------------

  ghost function Model<K, V>(vs: seq<(K, V)>): map<K, V>
  {
    if vs == [] then map[] else Model(vs[..|vs| - 1])[vs[|vs| - 1].0 := vs[|vs| - 1].1]
  }

  lemma {:induction false} ModelHas<K, V>(vs: seq<(K, V)>)
    requires DistinctKeys(vs)
    ensures forall i :: 0 <= i < |vs| ==> vs[i].0 in Model(vs) && Model(vs)[vs[i].0] == vs[i].1
    ensures forall k :: k in Model(vs) ==> exists i :: 0 <= i < |vs| && vs[i].0 == k
  {
    if vs != [] {
      ModelHas(vs[..|vs| - 1]);
    }
  }

  /** A map that has exactly the pairs of `vs` is its model. */
  lemma ModelIs<K, V>(vs: seq<(K, V)>, m: map<K, V>)
    requires DistinctKeys(vs)
    requires forall i :: 0 <= i < |vs| ==> vs[i].0 in m && m[vs[i].0] == vs[i].1
    requires forall k :: k in m ==> exists i :: 0 <= i < |vs| && vs[i].0 == k
    ensures Model(vs) == m
  {
    ModelHas(vs);
  }

  /** Removing value `r` by moving the last value into its place removes exactly its key. */
  lemma ModelRemoveSwap<K, V>(vs: seq<(K, V)>, r: nat)
    requires DistinctKeys(vs) && r < |vs|
    ensures Model(RemoveSwap(vs, r)) == Model(vs) - {vs[r].0}
  {
    hide Model;
    var vs', last, m := RemoveSwap(vs, r), |vs| - 1, Model(vs) - {vs[r].0};
    RemoveSwapDistinct(vs, r);
    ModelHas(vs);
    forall k | k in m ensures exists i :: 0 <= i < |vs'| && vs'[i].0 == k {
      var i :| 0 <= i < |vs| && vs[i].0 == k;
      assert vs'[if i == last then r else i].0 == k;
    }
    forall i | 0 <= i < |vs'| ensures vs'[i].0 in m && m[vs'[i].0] == vs'[i].1 {
      assert vs'[i] == vs[if i == r then last else i];
    }
    ModelIs(vs', m);
  }

  /** Overwriting the value of a stored key. */
  lemma ModelAssign<K, V>(vs: seq<(K, V)>, r: nat, v: V)
    requires DistinctKeys(vs) && r < |vs|
    ensures DistinctKeys(vs[r := (vs[r].0, v)])
    ensures Model(vs[r := (vs[r].0, v)]) == Model(vs)[vs[r].0 := v]
  {
    var vs' := vs[r := (vs[r].0, v)];
    ModelHas(vs);
    ModelHas(vs');
    var m, m' := Model(vs)[vs[r].0 := v], Model(vs');
    forall k | k in m' ensures k in m && m[k] == m'[k] {
      var i :| 0 <= i < |vs'| && vs'[i].0 == k;
      assert vs'[i].0 == vs[i].0;
    }
    forall k | k in m ensures k in m' {
      if k == vs[r].0 { assert vs'[r].0 == k; }
      else {
        var i :| 0 <= i < |vs| && vs[i].0 == k;
        assert vs'[i].0 == k;
      }
    }
  }

  lemma Pow2Is64()
    ensures Pow2(64) == 0x1_0000_0000_0000_0000
  {
    assert Pow2(8) == 256;
    Pow2Split(8, 8);
    Pow2Split(16, 16);
    Pow2Split(32, 32);
  }

  /** Shifting a 64-bit hash right by `s` leaves an index below 2^(64-s). */
  lemma HomeInRange<K>(h: Hasher<K>, s: nat, k: K)
    requires s <= 64
    ensures Home(h, Pow2(s), k) < Pow2(64 - s)
  {
    Pow2Split(64 - s, s);
    Pow2Is64();
    DivBelow(h(k), Pow2(s), Pow2(64 - s));
  }

  lemma DivBelow(x: nat, w: nat, n: nat)
    requires w > 0 && x < n * w
    ensures x / w < n
  {
  }

  /** An empty position, seen from `hm`. */
  lemma EmptyAt(bs: seq<Bucket>, pos: seq<nat>, hm: nat) returns (o: nat)
    requires Matched(bs, pos) && |pos| < |bs| && hm < |bs|
    ensures o < |bs| && bs[Fwd(hm, o, |bs|)].daf == 0
  {
    var z := SomeEmpty(bs, pos);
    o := Off(hm, z, |bs|);
  }

  lemma {:induction false} FirstEmpty(bs: seq<Bucket>, s: nat, o: nat) returns (e: nat)
    requires s < |bs| && o < |bs| && bs[Fwd(s, o, |bs|)].daf == 0
    ensures Run(bs, s, e)
  {
    if i :| 0 <= i < o && bs[Fwd(s, i, |bs|)].daf == 0 {
      e := FirstEmpty(bs, s, i);
    } else {
      e := o;
    }
  }

  // ---------------------------------------------------------------------------------------
  // A search under way
  // ---------------------------------------------------------------------------------------

  /** Where a search stands after `j` steps from `hm`; it may run past the end of the ring once. */
  function Spot(hm: nat, j: nat, n: nat): nat
    requires hm < n && j < 2 * n
  {
    Fwd(hm, if j < n then j else j - n, n)
  }

  /** The search for `k` is at `p` with word `d`, has not met `k`, and will meet the empty bucket `oz` steps from home. */
  ghost predicate Searching<K, V>(bs: seq<Bucket>, vs: seq<(K, V)>, h: Hasher<K>, w: nat, k: K,
                                  d: nat, p: nat, j: nat, oz: nat, lim: nat)
  {
    && w > 0 && Home(h, w, k) < |bs| && oz < |bs| && bs[Fwd(Home(h, w, k), oz, |bs|)].daf == 0
    && (lim == oz || lim == |bs| + oz) && j <= lim
    && d == Word(h, k, j) && p == Spot(Home(h, w, k), j, |bs|)
    && NotWithin(bs, vs, h, w, k, if j < |bs| then j else |bs|)
  }

  lemma SearchBegins<K, V>(bs: seq<Bucket>, vs: seq<(K, V)>, pos: seq<nat>, h: Hasher<K>, w: nat, k: K, oz: nat, lim: nat)
    requires Index(bs, vs, pos, h, w) && Home(h, w, k) < |bs| && oz < |bs|
    requires bs[Fwd(Home(h, w, k), oz, |bs|)].daf == 0 && (lim == oz || lim == |bs| + oz)
    ensures Searching(bs, vs, h, w, k, First(h, k), Home(h, w, k), 0, oz, lim)
    ensures Probe(bs, vs, Home(h, w, k))
  {
  }

  /** A bucket that may be compared with. */
  ghost predicate Probe<K, V>(bs: seq<Bucket>, vs: seq<(K, V)>, p: nat) {
    p < |bs| && (bs[p].daf != 0 ==> bs[p].idx < |vs|)
  }

  lemma SearchOn<K, V>(bs: seq<Bucket>, vs: seq<(K, V)>, pos: seq<nat>, h: Hasher<K>, w: nat, k: K,
                       d: nat, p: nat, j: nat, oz: nat, lim: nat)
    requires Index(bs, vs, pos, h, w) && Searching(bs, vs, h, w, k, d, p, j, oz, lim) && p < |bs|
    requires j < lim || bs[p].daf != 0
    requires bs[p].daf == d ==> bs[p].idx < |vs| && vs[bs[p].idx].0 != k
    ensures Searching(bs, vs, h, w, k, d + DIST_INC, Next(p, |bs|), j + 1, oz, lim)
    ensures j < lim && Probe(bs, vs, Next(p, |bs|))
  {
    assert !Stores(bs, vs, p, k);
  }

  lemma SearchEnds<K, V>(bs: seq<Bucket>, vs: seq<(K, V)>, pos: seq<nat>, h: Hasher<K>, w: nat, k: K,
                         d: nat, p: nat, j: nat, oz: nat, lim: nat)
    requires Index(bs, vs, pos, h, w)
    requires Searching(bs, vs, h, w, k, d, p, j, oz, lim) && p < |bs| && bs[p].daf < d
    ensures k !in Model(vs) && forall i :: 0 <= i < |vs| ==> vs[i].0 != k
  {
    ModelHas(vs);
    if j < |bs| { StopIsRight(bs, vs, h, w, k, j); }
    forall i | 0 <= i < |vs| ensures vs[i].0 != k {
      assert !Stores(bs, vs, pos[i], k);
    }
  }

  lemma SearchHits<K, V>(bs: seq<Bucket>, vs: seq<(K, V)>, pos: seq<nat>, h: Hasher<K>, w: nat, p: nat)
    requires Index(bs, vs, pos, h, w) && p < |bs| && bs[p].daf != 0
    ensures bs[p].idx < |vs| && vs[bs[p].idx].0 in Model(vs) && Model(vs)[vs[bs[p].idx].0] == vs[bs[p].idx].1
  {
    ModelHas(vs);
  }

  /** The search for `k` has passed `j` buckets, none shorter than its word and none with key `k`. */
  ghost predicate Probing<K, V>(bs: seq<Bucket>, vs: seq<(K, V)>, h: Hasher<K>, w: nat, k: K,
                                d: nat, p: nat, j: nat, oz: nat)
  {
    && w > 0 && Home(h, w, k) < |bs| && j <= oz < |bs| && bs[Fwd(Home(h, w, k), oz, |bs|)].daf == 0
    && d == Word(h, k, j) && p == Fwd(Home(h, w, k), j, |bs|) && NotWithin(bs, vs, h, w, k, j)
    && (forall i :: 0 <= i < j ==> bs[Fwd(Home(h, w, k), i, |bs|)].daf >= Word(h, k, i))
  }

  lemma ProbeBegins<K, V>(bs: seq<Bucket>, vs: seq<(K, V)>, pos: seq<nat>, h: Hasher<K>, w: nat, k: K) returns (oz: nat)
    requires Index(bs, vs, pos, h, w) && Home(h, w, k) < |bs|
    ensures Probing(bs, vs, h, w, k, First(h, k), Home(h, w, k), 0, oz) && Probe(bs, vs, Home(h, w, k))
    ensures First(h, k) >= DIST_INC
  {
    oz := EmptyAt(bs, pos, Home(h, w, k));
  }

  lemma ProbeOn<K, V>(bs: seq<Bucket>, vs: seq<(K, V)>, pos: seq<nat>, h: Hasher<K>, w: nat, k: K,
                      d: nat, p: nat, j: nat, oz: nat)
    requires Index(bs, vs, pos, h, w) && Probing(bs, vs, h, w, k, d, p, j, oz) && p < |bs|
    requires bs[p].daf >= d && (bs[p].daf == d ==> bs[p].idx < |vs| && vs[bs[p].idx].0 != k)
    ensures Probing(bs, vs, h, w, k, d + DIST_INC, Next(p, |bs|), j + 1, oz)
    ensures j < oz && Probe(bs, vs, Next(p, |bs|))
    ensures bs[p].daf == d ==> bs[Next(p, |bs|)].daf <= d + DIST_INC
  {
    hide Ordered, Matched, Clean;
    assert !Stores(bs, vs, p, k);
    OrderedHere(bs, p);
  }

  lemma OrderedHere(bs: seq<Bucket>, p: nat)
    requires Ordered(bs) && p < |bs|
    ensures OrderedAt(bs, p)
  {
  }

  /** A probe that has come to a bucket no taller than its word is at the place for an insert. */
  lemma ProbeStops<K, V>(bs: seq<Bucket>, vs: seq<(K, V)>, h: Hasher<K>, w: nat, k: K, d: nat, p: nat, j: nat, oz: nat)
    requires Probing(bs, vs, h, w, k, d, p, j, oz) && bs[p].daf <= d
    ensures StopsAt(bs, h, w, k, j) && p == Fwd(Home(h, w, k), j, |bs|) && d == Word(h, k, j)
    ensures exists e :: Run(bs, p, e)
  {
    var hm, n := Home(h, w, k), |bs|;
    var z := Fwd(hm, oz, n);
    assert Fwd(p, Off(p, z, n), n) == z;
    var e := FirstEmpty(bs, p, Off(p, z, n));
  }

  lemma ProbeMisses<K, V>(bs: seq<Bucket>, vs: seq<(K, V)>, pos: seq<nat>, h: Hasher<K>, w: nat, k: K,
                          d: nat, p: nat, j: nat, oz: nat)
    requires Index(bs, vs, pos, h, w) && Probing(bs, vs, h, w, k, d, p, j, oz) && p < |bs| && bs[p].daf < d
    ensures k !in Model(vs) && forall i :: 0 <= i < |vs| ==> vs[i].0 != k
  {
    SearchEnds(bs, vs, pos, h, w, k, d, p, j, oz, oz);
  }

  // ---------------------------------------------------------------------------------------
  // Changing the buckets in place
  // ---------------------------------------------------------------------------------------

  /** After `o` exchanges from `s` on, `c` is carried along and is due at `p`. */
  ghost predicate Shifting(bs: seq<Bucket>, was: seq<Bucket>, b: Bucket, s: nat, e: nat, o: nat, c: Bucket, p: nat)
  {
    && Run(was, s, e) && |bs| == |was| && o <= e && p == Fwd(s, o, |bs|) && p < |bs|
    && c == (if o == 0 then b else Up(was[Prev(p, |bs|)]))
    && (bs[p].daf != 0 <==> o < e)
    && (forall q :: 0 <= q < |bs| ==> bs[q] == if Off(s, q, |bs|) < o then ShiftUp(was, b, s, e)[q] else was[q])
  }

  lemma ShiftOn(bs: seq<Bucket>, was: seq<Bucket>, b: Bucket, s: nat, e: nat, o: nat, c: Bucket, p: nat)
    requires Shifting(bs, was, b, s, e, o, c, p) && o < e
    ensures Shifting(bs[p := c], was, b, s, e, o + 1, Up(bs[p]), Next(p, |bs|))
  {
    var n := |bs|;
    assert Fwd(s, o, n) == p && Fwd(s, o + 1, n) == Next(p, n) && Prev(Next(p, n), n) == p;
    assert Off(s, p, n) == o && Off(s, Next(p, n), n) == o + 1;
    ShiftPrefix(bs, was, b, s, e, o, c, p);
  }

  lemma ShiftAt(bs: seq<Bucket>, was: seq<Bucket>, b: Bucket, s: nat, e: nat, o: nat, c: Bucket, p: nat)
    requires Shifting(bs, was, b, s, e, o, c, p)
    ensures p < |bs| && o <= e && (bs[p].daf != 0 <==> o < e)
  {
  }

  lemma ShiftPrefix(bs: seq<Bucket>, was: seq<Bucket>, b: Bucket, s: nat, e: nat, o: nat, c: Bucket, p: nat)
    requires |bs| == |was| && s < |bs| && p < |bs| && o <= e < |bs| && Off(s, p, |bs|) == o
    requires c == if o == 0 then b else Up(was[Prev(p, |bs|)])
    requires forall q :: 0 <= q < |bs| ==> bs[q] == if Off(s, q, |bs|) < o then ShiftUp(was, b, s, e)[q] else was[q]
    ensures forall q :: 0 <= q < |bs| ==>
              bs[p := c][q] == if Off(s, q, |bs|) < o + 1 then ShiftUp(was, b, s, e)[q] else was[q]
  {
    forall q | 0 <= q < |bs| && q != p ensures Off(s, q, |bs|) != o {}
  }

  lemma ShiftDone(bs: seq<Bucket>, was: seq<Bucket>, b: Bucket, s: nat, e: nat, c: Bucket, p: nat)
    requires Shifting(bs, was, b, s, e, e, c, p)
    ensures bs[p := c] == ShiftUp(was, b, s, e)
  {
    var n := |bs|;
    assert Off(s, p, n) == e;
    forall q | 0 <= q < n ensures bs[p := c][q] == ShiftUp(was, b, s, e)[q] {
      if q != p { assert Off(s, q, n) != e; }
    }
  }

  /** `place_and_shift_up`: each bucket is exchanged with the one carried along, until an empty one takes the last. */
  method PlaceAndShiftUp(buckets: array<Bucket>, b: Bucket, place: nat, ghost e: nat)
    requires Run(buckets[..], place, e)
    modifies buckets
    ensures buckets[..] == ShiftUp(old(buckets[..]), b, place, e)
  {
    ghost var was := buckets[..];
    var bucket: Bucket, p: nat := b, place;
    ghost var o: nat := 0;
    assert Shifting(buckets[..], was, b, place, e, 0, b, place);
    ShiftAt(buckets[..], was, b, place, e, 0, b, place);
    hide Shifting, Run, ShiftUp, Next;
    while buckets[p].daf != 0
      invariant Shifting(buckets[..], was, b, place, e, o, bucket, p)
      invariant p < buckets.Length && o <= e && (buckets[p].daf != 0 <==> o < e)
      decreases e - o
    {
      ghost var bs := buckets[..];
      ShiftOn(bs, was, b, place, e, o, bucket, p);
      var next := buckets[p];
      buckets[p] := bucket;
      assert buckets[..] == bs[p := bucket];
      bucket, p, o := Up(next), Next(p, buckets.Length), o + 1;
      ShiftAt(buckets[..], was, b, place, e, o, bucket, p);
    }
    ShiftDone(buckets[..], was, b, place, e, bucket, p);
    ghost var bs := buckets[..];
    buckets[p] := bucket;
    assert buckets[..] == bs[p := bucket];
  }

  method NextWhileLess<K, V>(buckets: array<Bucket>, hash: Hasher<K>, shifts: nat, k: K, ghost vs: seq<(K, V)>, ghost pos: seq<nat>)
    returns (d: nat, p: nat, ghost j: nat, ghost oz: nat)
    requires Index(buckets[..], vs, pos, hash, Pow2(shifts)) && Home(hash, Pow2(shifts), k) < buckets.Length
    ensures Probing(buckets[..], vs, hash, Pow2(shifts), k, d, p, j, oz) && Probe(buckets[..], vs, p)
    ensures buckets[p].daf <= d && d >= DIST_INC
  {
    hide Index, Probing, Fwd, Next, Home, First, Word;
    ghost var bs, w := buckets[..], Pow2(shifts);
    d, p, j := First(hash, k), Home(hash, Pow2(shifts), k), 0;
    oz := ProbeBegins(bs, vs, pos, hash, w, k);
    while d < buckets[p].daf
      invariant Probing(bs, vs, hash, w, k, d, p, j, oz) && Probe(bs, vs, p) && d >= DIST_INC && j <= oz
      decreases oz - j
    {
      ProbeOn(bs, vs, pos, hash, w, k, d, p, j, oz);
      d, p, j := d + DIST_INC, Next(p, buckets.Length), j + 1;
    }
  }

  lemma EmptyIndex<K, V>(bs: seq<Bucket>, h: Hasher<K>, w: nat)
    requires |bs| > 1 && w > 0 && forall p :: 0 <= p < |bs| ==> bs[p] == EMPTY
    ensures Index<K, V>(bs, [], [], h, w)
  {
    forall p | 0 <= p < |bs| ensures OrderedAt(bs, p) {}
  }

  // ---------------------------------------------------------------------------------------
  // Erasing in place
  // ---------------------------------------------------------------------------------------

  /** The buckets behind `s` that must move back are followed by one that must not. */
  lemma TailFound(bs: seq<Bucket>, pos: seq<nat>, s: nat) returns (e: nat)
    requires Matched(bs, pos) && |pos| < |bs| && s < |bs| && bs[s].daf != 0
    ensures Tail(bs, s, e)
  {
    var z := SomeEmpty(bs, pos);
    e := 0;
    while bs[Fwd(s, e + 1, |bs|)].daf >= 2 * DIST_INC
      invariant e + 1 <= Off(s, z, |bs|)
      invariant forall o :: 1 <= o <= e ==> bs[Fwd(s, o, |bs|)].daf >= 2 * DIST_INC
      decreases |bs| - e
    {
      e := e + 1;
    }
  }

  /** `o` buckets have moved back onto `s` and those behind it; the hole is at `p`. */
  ghost predicate Lowering(bs: seq<Bucket>, was: seq<Bucket>, s: nat, e: nat, o: nat, p: nat)
  {
    && Tail(was, s, e) && |bs| == |was| && o <= e && p == Fwd(s, o, |bs|)
    && (bs[Next(p, |bs|)].daf >= 2 * DIST_INC <==> o < e)
    && (forall q :: 0 <= q < |bs| ==> bs[q] == if Off(s, q, |bs|) < o then ShiftDown(was, s, e)[q] else was[q])
  }

  lemma LowerOn(bs: seq<Bucket>, was: seq<Bucket>, s: nat, e: nat, o: nat, p: nat)
    requires Lowering(bs, was, s, e, o, p) && o < e
    ensures Lowering(bs[p := Down(bs[Next(p, |bs|)])], was, s, e, o + 1, Next(p, |bs|))
  {
    var n := |bs|;
    var p' := Next(p, n);
    var bs' := bs[p := Down(bs[p'])];
    assert Off(s, p, n) == o && p' == Fwd(s, o + 1, n) && Off(s, p', n) == o + 1;
    assert Next(p', n) == Fwd(s, o + 2, n) && Off(s, Next(p', n), n) == (if o + 2 == n then 0 else o + 2);
    forall q | 0 <= q < n
      ensures bs'[q] == if Off(s, q, n) < o + 1 then ShiftDown(was, s, e)[q] else was[q]
    {
      if q != p { assert Off(s, q, n) != o; }
    }
  }

  lemma LowerAt(bs: seq<Bucket>, was: seq<Bucket>, s: nat, e: nat, o: nat, p: nat)
    requires Lowering(bs, was, s, e, o, p)
    ensures p < |bs| && Next(p, |bs|) < |bs| && o <= e && (bs[Next(p, |bs|)].daf >= 2 * DIST_INC <==> o < e)
  {
  }

  lemma LowerDone(bs: seq<Bucket>, was: seq<Bucket>, s: nat, e: nat, p: nat)
    requires Lowering(bs, was, s, e, e, p)
    ensures bs[p := EMPTY] == ShiftDown(was, s, e)
  {
    var n := |bs|;
    assert Off(s, p, n) == e;
    forall q | 0 <= q < n ensures bs[p := EMPTY][q] == ShiftDown(was, s, e)[q] {
      if q != p { assert Off(s, q, n) != e; }
    }
  }

  /** The first loop of `do_erase`: shift down until a bucket that is empty or at home. */
  method CloseGap(buckets: array<Bucket>, s: nat, ghost e: nat)
    requires Tail(buckets[..], s, e)
    modifies buckets
    ensures buckets[..] == ShiftDown(old(buckets[..]), s, e)
  {
    ghost var was := buckets[..];
    var p: nat, next: nat := s, Next(s, buckets.Length);
    ghost var o: nat := 0;
    assert Next(s, |was|) == Fwd(s, 1, |was|);
    assert Lowering(buckets[..], was, s, e, 0, s);
    LowerAt(buckets[..], was, s, e, 0, s);
    hide Lowering, Tail, ShiftDown, Next;
    while buckets[next].daf >= 2 * DIST_INC
      invariant Lowering(buckets[..], was, s, e, o, p) && next == Next(p, buckets.Length) && p < buckets.Length
      invariant next < buckets.Length && o <= e && (buckets[next].daf >= 2 * DIST_INC <==> o < e)
      decreases e - o
    {
      ghost var bs := buckets[..];
      LowerOn(bs, was, s, e, o, p);
      buckets[p] := Bucket(buckets[next].daf - DIST_INC, buckets[next].idx);
      assert buckets[..] == bs[p := Down(bs[next])];
      p, next, o := next, Next(next, buckets.Length), o + 1;
      LowerAt(buckets[..], was, s, e, o, p);
    }
    LowerDone(buckets[..], was, s, e, p);
    ghost var bs := buckets[..];
    buckets[p] := EMPTY;
    assert buckets[..] == bs[p := EMPTY];
  }

  /** The bucket at `t` is in use and is the only one that names value `i`. */
  ghost predicate OnlyAt(bs: seq<Bucket>, i: nat, t: nat)
  {
    t < |bs| && bs[t].daf != 0 && forall q :: 0 <= q < |bs| ==> (bs[q].idx == i <==> q == t)
  }

  /** The second loop of `do_erase`: from `hm` on, look for the bucket of value `last` and give it to value `r`. */
  method Redirect(buckets: array<Bucket>, hm: nat, last: nat, r: nat, ghost t: nat)
    requires hm < buckets.Length && OnlyAt(buckets[..], last, t)
    modifies buckets
    ensures buckets[..] == Renumber(old(buckets[..]), last, r)
  {
    var p: nat := hm;
    ghost var j: nat := 0;
    assert forall q :: 0 <= q < buckets.Length ==> (buckets[q].idx == last <==> q == t);
    while last != buckets[p].idx
      invariant p < buckets.Length && j < buckets.Length && p == Fwd(hm, j, buckets.Length)
      invariant j <= Off(hm, t, buckets.Length)
      decreases buckets.Length - j
    {
      p, j := Next(p, buckets.Length), j + 1;
    }
    buckets[p] := buckets[p].(idx := r);
  }

  lemma IndexBounds<K, V>(bs: seq<Bucket>, vs: seq<(K, V)>, pos: seq<nat>, h: Hasher<K>, w: nat, k: K, v: V)
    requires Index(bs, vs, pos, h, w) && forall i :: 0 <= i < |vs| ==> vs[i].0 != k
    ensures |vs| < |bs| && DistinctKeys(vs + [(k, v)])
  {
  }

  lemma AssignKeeps<K, V>(bs: seq<Bucket>, vs: seq<(K, V)>, pos: seq<nat>, h: Hasher<K>, w: nat, i: nat, v: V)
    requires Index(bs, vs, pos, h, w) && i < |vs|
    ensures Index(bs, vs[i := (vs[i].0, v)], pos, h, w)
  {
  }

  lemma RemoveSwapIs<T>(vs: seq<T>, r: nat)
    requires r < |vs|
    ensures RemoveSwap(vs, r) == vs[r := vs[|vs| - 1]][..|vs| - 1]
    ensures r == |vs| - 1 ==> RemoveSwap(vs, r) == vs[..|vs| - 1]
  {
  }

  lemma EraseTail<K, V>(bs: seq<Bucket>, vs: seq<(K, V)>, pos: seq<nat>, h: Hasher<K>, w: nat, p: nat) returns (e: nat)
    requires Index(bs, vs, pos, h, w) && p < |bs| && bs[p].daf != 0
    ensures Tail(bs, p, e)
  {
    e := TailFound(bs, pos, p);
  }

  /** After the shift, the last value has the one bucket that names it; empty buckets name value 0. */
  lemma LastBucket<K, V>(bs: seq<Bucket>, vs: seq<(K, V)>, pos: seq<nat>, h: Hasher<K>, w: nat, s: nat, e: nat) returns (t: nat)
    requires Index(bs, vs, pos, h, w) && Tail(bs, s, e) && bs[s].daf != 0 && bs[s].idx != |vs| - 1
    ensures var bs' := ShiftDown(bs, s, e);
            OnlyAt(bs', |vs| - 1, t) && bs[s].idx < |vs| - 1
  {
    hide Placed, Ordered, ShiftDown;
    ShiftDownMatched(bs, pos, s, e);
    CleanDown(bs, s, e);
    t := PosDown(pos[|vs| - 1], s, e, |bs|);
  }

  lemma CleanDown(bs: seq<Bucket>, s: nat, e: nat)
    requires Clean(bs) && Tail(bs, s, e)
    ensures Clean(ShiftDown(bs, s, e)) && |ShiftDown(bs, s, e)| == |bs|
  {
    var n, bs' := |bs|, ShiftDown(bs, s, e);
    forall q | 0 <= q < n && Off(s, q, n) < e ensures bs'[q].daf >= DIST_INC {
      assert Next(q, n) == Fwd(s, Off(s, q, n) + 1, n);
    }
  }

  /** If the last value is the one erased there is nothing to renumber. */
  lemma NoLastBucket<K, V>(bs: seq<Bucket>, vs: seq<(K, V)>, pos: seq<nat>, h: Hasher<K>, w: nat, s: nat, e: nat)
    requires Index(bs, vs, pos, h, w) && Tail(bs, s, e) && bs[s].daf != 0 && bs[s].idx == |vs| - 1
    ensures Renumber(ShiftDown(bs, s, e), |vs| - 1, |vs| - 1) == ShiftDown(bs, s, e)
    ensures RemoveSwap(vs, |vs| - 1) == vs[..|vs| - 1]
  {
    ShiftDownMatched(bs, pos, s, e);
  }

  /** The shifts at which there are 2^32 buckets, the maximum. */
  const MAX_SHIFTS: nat := 32

  class Table<K(==), V> {
    const hash: Hasher<K>

    /** The bucket count times the maximum load factor, rounded down. */
    const capacityFor: nat -> nat

    var values: seq<(K, V)>
    var buckets: array<Bucket>
    var maxBucketCapacity: nat
    var shifts: nat
    ghost var pos: seq<nat>

    /** At the maximum bucket count every bucket may be used. */
    function Capacity(shifts: nat, n: nat): nat { if shifts == MAX_SHIFTS then n else capacityFor(n) }

    ghost predicate Sized()
      reads `shifts, `buckets, `maxBucketCapacity
    {
      && MAX_SHIFTS <= shifts <= 62 && buckets.Length == Pow2(64 - shifts) && 4 <= buckets.Length
      && maxBucketCapacity == Capacity(shifts, buckets.Length)
      && forall n :: n > 0 ==> capacityFor(n) < n
    }

    ghost predicate Valid()
      reads this, buckets
    {
      Sized() && Index(buckets[..], values, pos, hash, Pow2(shifts))
    }

    ghost function Contents(): map<K, V>
      reads this
    {
      Model(values)
    }

    constructor (hash: Hasher<K>, capacityFor: nat -> nat)
      requires forall n :: n > 0 ==> capacityFor(n) < n
      ensures Valid() && Contents() == map[] && fresh(buckets)
      ensures this.hash == hash && this.capacityFor == capacityFor
    {
      this.hash := hash;
      this.capacityFor := capacityFor;
      values, pos, shifts := [], [], 62;
      buckets := new Bucket[4](_ => EMPTY);
      maxBucketCapacity := capacityFor(4);
      new;
      assert Pow2(2) == 4;
      hide Index;
      EmptyIndex<K, V>(buckets[..], this.hash, Pow2(shifts));
    }

    /** Room for one more value that does not fill the last of the maximum number of buckets. */
    predicate HasRoom()
      reads this
    {
      |values| + 1 < buckets.Length || shifts > MAX_SHIFTS
    }

    lemma CapacityBelow()
      requires Sized() && shifts > MAX_SHIFTS
      ensures maxBucketCapacity < buckets.Length
    {
    }

    /** `clear_and_fill_buckets_from_values`. */
    method ClearAndFill()
      requires Sized() && DistinctKeys(values) && |values| < buckets.Length
      modifies `pos, buckets
      ensures Valid()
    {
      for i := 0 to buckets.Length
        invariant forall p :: 0 <= p < i ==> buckets[p] == EMPTY
      {
        buckets[i] := EMPTY;
      }
      pos := [];
      EmptyIndex<K, V>(buckets[..], hash, Pow2(shifts));
      hide Index;
      for i := 0 to |values|
        invariant Index(buckets[..], values[..i], pos, hash, Pow2(shifts))
      {
        FillOne(i);
      }
      assert values[..|values|] == values;
    }

    /** The new value `i` of key `k` gets the bucket where its probe stopped. */
    method Settle(ghost vs: seq<(K, V)>, k: K, ghost v: V, i: nat, d: nat, p: nat, ghost j: nat, ghost oz: nat)
      requires Index(buckets[..], vs, pos, hash, Pow2(shifts)) && i == |vs| && i + 1 < buckets.Length
      requires forall i :: 0 <= i < |vs| ==> vs[i].0 != k
      requires Probing(buckets[..], vs, hash, Pow2(shifts), k, d, p, j, oz) && buckets[p].daf <= d
      modifies `pos, buckets
      ensures Index(buckets[..], vs + [(k, v)], pos, hash, Pow2(shifts))
    {
      ghost var bs, w := buckets[..], Pow2(shifts);
      hide Index, Probing, StopsAt, Run, Sized, Fwd, Next, Home, First, Word, ShiftUp, ShiftPos;
      ProbeStops(bs, vs, hash, w, k, d, p, j, oz);
      ghost var e :| Run(bs, p, e);
      InsertKeeps(bs, vs, pos, hash, w, k, v, j, e);
      ghost var pos' := ShiftPos(pos, p, e, |bs|);
      PlaceAndShiftUp(buckets, Bucket(d, i), p, e);
      pos := pos';
    }

    /** One turn of the refill: value `i` gets its bucket. */
    method FillOne(i: nat)
      requires Sized() && DistinctKeys(values) && i < |values| < buckets.Length
      requires Index(buckets[..], values[..i], pos, hash, Pow2(shifts))
      modifies `pos, buckets
      ensures Index(buckets[..], values[..i + 1], pos, hash, Pow2(shifts))
    {
      HomeInRange(hash, shifts, values[i].0);
      hide Index, Probing, Sized, Home;
      ghost var j, oz;
      var d, p;
      d, p, j, oz := NextWhileLess(buckets, hash, shifts, values[i].0, values[..i], pos);
      Settle(values[..i], values[i].0, values[i].1, i, d, p, j, oz);
      assert values[..i + 1] == values[..i] + [(values[i].0, values[i].1)];
    }

    /** `increase_size`: twice the buckets, filled anew from the values. */
    method IncreaseSize()
      requires Sized() && shifts > MAX_SHIFTS && DistinctKeys(values) && |values| <= buckets.Length
      modifies this
      ensures Valid() && values == old(values) && fresh(buckets) && shifts == old(shifts) - 1
    {
      shifts := shifts - 1;
      buckets := new Bucket[Pow2(64 - shifts)](_ => EMPTY);
      maxBucketCapacity := Capacity(shifts, buckets.Length);
      ClearAndFill();
    }

    /** `do_place_element`: the value goes to the back, its bucket to the place where the probe stopped. */
    method PlaceElement(k: K, v: V, d: nat, p: nat, ghost j: nat, ghost oz: nat)
      requires Valid() && HasRoom() && forall i :: 0 <= i < |values| ==> values[i].0 != k
      requires Probing(buckets[..], values, hash, Pow2(shifts), k, d, p, j, oz) && buckets[p].daf <= d
      modifies this, buckets
      ensures Valid() && values == old(values) + [(k, v)]
      ensures if |values| > old(maxBucketCapacity) then fresh(buckets) && shifts == old(shifts) - 1
              else buckets == old(buckets) && shifts == old(shifts)
    {
      ghost var bs, vs, w := buckets[..], values, Pow2(shifts);
      if shifts > MAX_SHIFTS { CapacityBelow(); }
      assert shifts == MAX_SHIFTS ==> maxBucketCapacity == buckets.Length;
      hide Index, Sized, Probing, DistinctKeys;
      IndexBounds(bs, vs, pos, hash, w, k, v);
      values := values + [(k, v)];
      if |values| > maxBucketCapacity {
        IncreaseSize();
      } else {
        Settle(vs, k, v, |values| - 1, d, p, j, oz);
      }
    }

    /** The search of `do_try_emplace`. */
    method Seek(k: K) returns (found: bool, d: nat, p: nat, ghost j: nat, ghost oz: nat)
      requires Valid()
      ensures Probing(buckets[..], values, hash, Pow2(shifts), k, d, p, j, oz) && p < buckets.Length
      ensures found == (k in Contents())
      ensures if found then buckets[p].daf != 0 && buckets[p].idx < |values| && values[buckets[p].idx] == (k, Contents()[k])
              else buckets[p].daf < d && forall i :: 0 <= i < |values| ==> values[i].0 != k
    {
      ghost var bs, w := buckets[..], Pow2(shifts);
      HomeInRange(hash, shifts, k);
      hide Index, Probing, Sized, Fwd, Next, Home, First, Word, Model;
      d, p, j := First(hash, k), Home(hash, Pow2(shifts), k), 0;
      oz := ProbeBegins(bs, values, pos, hash, w, k);
      while true
        invariant Probing(bs, values, hash, w, k, d, p, j, oz) && Probe(bs, values, p) && d >= DIST_INC && j <= oz
        decreases oz - j
      {
        if d == buckets[p].daf {
          if k == values[buckets[p].idx].0 {
            SearchHits(bs, values, pos, hash, w, p);
            return true, d, p, j, oz;
          }
        } else if d > buckets[p].daf {
          ProbeMisses(bs, values, pos, hash, w, k, d, p, j, oz);
          return false, d, p, j, oz;
        }
        ProbeOn(bs, values, pos, hash, w, k, d, p, j, oz);
        d, p, j := d + DIST_INC, Next(p, buckets.Length), j + 1;
      }
    }

    /** `do_try_emplace`: finds the value of `k`, or adds it. */
    method TryEmplace(k: K, v: V) returns (i: nat, inserted: bool)
      requires Valid() && HasRoom()
      modifies this, buckets
      ensures Valid() && (buckets == old(buckets) || fresh(buckets))
      ensures inserted == (k !in old(Contents()))
      ensures Contents() == if inserted then old(Contents())[k := v] else old(Contents())
      ensures shifts == if inserted && |values| > old(maxBucketCapacity) then old(shifts) - 1 else old(shifts)
      ensures i < |values| && values[i] == (k, Contents()[k])
    {
      var found, d, p;
      ghost var j, oz;
      found, d, p, j, oz := Seek(k);
      hide Index, Probing, Sized;
      if found { return buckets[p].idx, false; }
      PlaceElement(k, v, d, p, j, oz);
      assert values[..|values| - 1] == old(values);
      return |values| - 1, true;
    }

    /** `do_insert_or_assign`. */
    method InsertOrAssign(k: K, v: V) returns (inserted: bool)
      requires Valid() && HasRoom()
      modifies this, buckets
      ensures Valid() && (buckets == old(buckets) || fresh(buckets))
      ensures inserted == (k !in old(Contents()))
      ensures Contents() == old(Contents())[k := v]
    {
      hide Placed, Ordered, Matched, Clean;
      var i;
      i, inserted := TryEmplace(k, v);
      if !inserted {
        ModelAssign(values, i, v);
        AssignKeeps(buckets[..], values, pos, hash, Pow2(shifts), i, v);
        values := values[i := (k, v)];
      }
    }

    /** The second half of `do_erase`: the last value fills the hole, and its bucket is told. */
    method MoveLast(r: nat, ghost bs: seq<Bucket>, ghost p: nat, ghost e: nat)
      requires Sized() && Index(bs, values, pos, hash, Pow2(shifts)) && Tail(bs, p, e)
      requires bs[p].daf != 0 && bs[p].idx == r && buckets[..] == ShiftDown(bs, p, e) && r < |values|
      modifies `values, buckets
      ensures values == RemoveSwap(old(values), r)
      ensures buckets[..] == Renumber(ShiftDown(bs, p, e), |old(values)| - 1, r)
    {
      ghost var vs, w := values, Pow2(shifts);
      HomeInRange(hash, shifts, vs[|vs| - 1].0);
      hide Index, Sized, Tail, Next, Home, First, Word, ShiftDown, Renumber, Fwd, RemoveSwap, OnlyAt;
      RemoveSwapIs(vs, r);
      if r != |values| - 1 {
        values := values[r := values[|values| - 1]];
        ghost var t := LastBucket(bs, vs, pos, hash, w, p, e);
        Redirect(buckets, Home(hash, Pow2(shifts), values[r].0), |values| - 1, r, t);
      } else {
        NoLastBucket(bs, vs, pos, hash, w, p, e);
      }
      values := values[..|values| - 1];
    }

    /** `do_erase` of the value whose bucket is `p`. */
    method Erase(p: nat)
      requires Valid() && p < buckets.Length && buckets[p].daf != 0
      modifies this, buckets
      ensures Valid() && buckets == old(buckets) && shifts == old(shifts)
      ensures old(buckets[p].idx) < |old(values)|
      ensures Contents() == old(Contents()) - {old(values)[old(buckets[p].idx)].0}
    {
      ghost var bs, vs, w := buckets[..], values, Pow2(shifts);
      var r := buckets[p].idx;
      SearchHits(bs, vs, pos, hash, w, p);
      ghost var e := EraseTail(bs, vs, pos, hash, w, p);
      ghost var pos' := ErasePos(pos, p, e, |bs|, r);
      EraseKeeps(bs, vs, pos, hash, w, p, e);
      ModelRemoveSwap(vs, r);
      hide Index, Sized, Tail, Next, Home, First, Word, ShiftDown, Renumber, ErasePos, Fwd, Model, RemoveSwap;
      CloseGap(buckets, p, e);
      MoveLast(r, bs, p, e);
      pos := pos';
    }

    /** The search of `do_erase_key`: past the taller buckets, then along the buckets of equal word. */
    method Locate(k: K) returns (found: bool, p: nat)
      requires Valid() && values != []
      ensures found == (k in Contents())
      ensures found ==> p < buckets.Length && buckets[p].daf != 0 && buckets[p].idx < |values| && values[buckets[p].idx].0 == k
    {
      ghost var bs, w := buckets[..], Pow2(shifts);
      HomeInRange(hash, shifts, k);
      hide Index, Probing, Sized, Fwd, Next, Home, First, Word, Model;
      var d: nat;
      ghost var j: nat, oz: nat;
      d, p, j, oz := NextWhileLess(buckets, hash, shifts, k, values, pos);
      while d == buckets[p].daf && k != values[buckets[p].idx].0
        invariant Probing(bs, values, hash, w, k, d, p, j, oz) && Probe(bs, values, p) && d >= DIST_INC && j <= oz
        invariant bs[p].daf <= d
        decreases oz - j
      {
        ProbeOn(bs, values, pos, hash, w, k, d, p, j, oz);
        d, p, j := d + DIST_INC, Next(p, buckets.Length), j + 1;
      }
      if d != buckets[p].daf {
        ProbeMisses(bs, values, pos, hash, w, k, d, p, j, oz);
        return false, p;
      }
      SearchHits(bs, values, pos, hash, w, p);
      return true, p;
    }

    /** `do_erase_key`. */
    method EraseKey(k: K) returns (n: nat)
      requires Valid()
      modifies this, buckets
      ensures Valid() && buckets == old(buckets)
      ensures n == if k in old(Contents()) then 1 else 0
      ensures Contents() == old(Contents()) - {k}
    {
      if values == [] {
        assert Contents() == map[];
        return 0;
      }
      hide Index, Sized, Model;
      var found, p := Locate(k);
      if !found {
        assert Contents() - {k} == Contents();
        return 0;
      }
      Erase(p);
      return 1;
    }

    /** `do_find`: two positions are compared without the early exit, then the search proper begins. */
    method Find(k: K) returns (r: Maybe<V>)
      requires Valid()
      ensures r == if k in Contents() then Found(Contents()[k]) else Missing
    {
      hide Index, Searching, Sized, Fwd, Next, Home, First, Word;
      ghost var bs, w := buckets[..], Pow2(shifts);
      if values == [] { return Missing; }
      var d: nat := First(hash, k);
      var p: nat := Home(hash, Pow2(shifts), k);
      ghost var oz, lim := Start(k);
      if d == buckets[p].daf && k == values[buckets[p].idx].0 {
        SearchHits(bs, values, pos, hash, w, p);
        return Found(values[buckets[p].idx].1);
      }
      SearchOn(bs, values, pos, hash, w, k, d, p, 0, oz, lim);
      d, p := d + DIST_INC, Next(p, buckets.Length);
      if d == buckets[p].daf && k == values[buckets[p].idx].0 {
        SearchHits(bs, values, pos, hash, w, p);
        return Found(values[buckets[p].idx].1);
      }
      SearchOn(bs, values, pos, hash, w, k, d, p, 1, oz, lim);
      d, p := d + DIST_INC, Next(p, buckets.Length);
      ghost var j: nat := 2;
      while true
        invariant Searching(bs, values, hash, w, k, d, p, j, oz, lim) && Probe(bs, values, p)
          invariant d >= DIST_INC && j <= lim
        decreases lim + 1 - j
      {
        if d == buckets[p].daf {
          if k == values[buckets[p].idx].0 {
            SearchHits(bs, values, pos, hash, w, p);
            return Found(values[buckets[p].idx].1);
          }
        } else if d > buckets[p].daf {
          SearchEnds(bs, values, pos, hash, w, k, d, p, j, oz, lim);
          return Missing;
        }
        SearchOn(bs, values, pos, hash, w, k, d, p, j, oz, lim);
        d, p, j := d + DIST_INC, Next(p, buckets.Length), j + 1;
      }
    }

    lemma Start(k: K) returns (oz: nat, lim: nat)
      requires Valid()
      ensures Home(hash, Pow2(shifts), k) < buckets.Length && lim >= 2 && First(hash, k) >= DIST_INC
      ensures Searching(buckets[..], values, hash, Pow2(shifts), k, First(hash, k), Home(hash, Pow2(shifts), k), 0, oz, lim)
      ensures Probe(buckets[..], values, Home(hash, Pow2(shifts), k))
    {
      var n, hm := buckets.Length, Home(hash, Pow2(shifts), k);
      HomeInRange(hash, shifts, k);
      oz := EmptyAt(buckets[..], pos, hm);
      lim := if oz >= 2 then oz else n + oz;
      SearchBegins(buckets[..], values, pos, hash, Pow2(shifts), k, oz, lim);
    }
  }
}
