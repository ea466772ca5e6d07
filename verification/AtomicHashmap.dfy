/**
 The multi-level hash map used by one thread: a key has one home bucket per level, and may leave a stale second copy
 behind. What a lookup sees is a partial map all the same.
 */
module AtomicHashmap {

  datatype Maybe<+T> = None | Some(value: T)

  datatype Bucket<+K, +V> = Bucket(key: Maybe<K>, value: Maybe<V>)

  /** 0, -ENOENT and -ENOMEM. */
  datatype Code = Ok | NoEntry | NoMemory

  type Hasher<!K> = K -> nat

  /** Where level `l` begins. */
  function Base(caps: seq<nat>, l: nat): nat
    requires l <= |caps|
  {
    if l == 0 then 0 else Base(caps, l - 1) + caps[l - 1]
  }

  ghost predicate Levels(caps: seq<nat>) { forall l :: 0 <= l < |caps| ==> caps[l] > 0 }

  ghost predicate Shaped<K, V>(b: seq<Bucket<K, V>>, caps: seq<nat>) { Levels(caps) && |b| == Base(caps, |caps|) }

  /** The home of `k` on level `l`. */
  function Home<K>(caps: seq<nat>, h: Hasher<K>, k: K, l: nat): nat
    requires l < |caps| && caps[l] > 0
  {
    Base(caps, l) + h(k) % caps[l]
  }

  lemma {:induction false} BaseMono(caps: seq<nat>, l: nat, m: nat)
    requires l <= m <= |caps|
    ensures Base(caps, l) <= Base(caps, m)
  {
    if l < m { BaseMono(caps, l, m - 1); }
  }

  lemma HomeInRange<K>(caps: seq<nat>, h: Hasher<K>, k: K, l: nat)
    requires Levels(caps) && l < |caps|
    ensures Base(caps, l) <= Home(caps, h, k, l) < Base(caps, l + 1) <= Base(caps, |caps|)
  {
    BaseMono(caps, l + 1, |caps|);
  }

  // ---------------------------------------------------------------------------------------
  // The operations on values
  // ---------------------------------------------------------------------------------------

  /** `Lookup` from level `l` on: the first home that holds `k`. */
  ghost function LookupFrom<K, V>(b: seq<Bucket<K, V>>, caps: seq<nat>, h: Hasher<K>, k: K, l: nat): (r: Maybe<nat>)
    requires Shaped(b, caps) && l <= |caps|
    ensures r.Some? ==> r.value < |b| && b[r.value].key == Some(k)
    decreases |caps| - l
  {
    if l == |caps| then None else
      HomeInRange(caps, h, k, l);
      if b[Home(caps, h, k, l)].key == Some(k) then Some(Home(caps, h, k, l)) else LookupFrom(b, caps, h, k, l + 1)
  }

  /** `Occupy` from level `l` on: the first home that is empty or holds `k`. */
  ghost function OccupyFrom<K, V>(b: seq<Bucket<K, V>>, caps: seq<nat>, h: Hasher<K>, k: K, l: nat): (r: Maybe<nat>)
    requires Shaped(b, caps) && l <= |caps|
    ensures r.Some? ==> r.value < |b| && (b[r.value].key == None || b[r.value].key == Some(k))
    decreases |caps| - l
  {
    if l == |caps| then None else
      HomeInRange(caps, h, k, l);
      var i := Home(caps, h, k, l);
      if b[i].key == None || b[i].key == Some(k) then Some(i) else OccupyFrom(b, caps, h, k, l + 1)
  }

  /** What `Get` returns. */
  ghost function Visible<K, V>(b: seq<Bucket<K, V>>, caps: seq<nat>, h: Hasher<K>, k: K): Maybe<V>
    requires Shaped(b, caps)
  {
    var r := LookupFrom(b, caps, h, k, 0);
    if r.Some? then b[r.value].value else None
  }

  ghost function SetIn<K, V>(b: seq<Bucket<K, V>>, caps: seq<nat>, h: Hasher<K>, k: K, v: V, memory: bool): seq<Bucket<K, V>>
    requires Shaped(b, caps)
  {
    var r := OccupyFrom(b, caps, h, k, 0);
    if r == None then b
    else b[r.value := Bucket(Some(k), if memory then Some(v) else b[r.value].value)]
  }

  ghost function DeleteIn<K, V>(b: seq<Bucket<K, V>>, k: K): seq<Bucket<K, V>> {
    seq(|b|, i requires 0 <= i < |b| => if b[i].key == Some(k) then Bucket(None, None) else b[i])
  }

  /** A bucket without key has no value. */
  ghost predicate Tidy<K, V>(b: seq<Bucket<K, V>>) { forall i :: 0 <= i < |b| && b[i].key == None ==> b[i].value == None }

  /** The buckets show the map `m`. */
  ghost predicate Shows<K(!new), V>(b: seq<Bucket<K, V>>, caps: seq<nat>, h: Hasher<K>, m: map<K, V>)
    requires Shaped(b, caps)
  {
    forall k :: Visible(b, caps, h, k) == if k in m then Some(m[k]) else None
  }

  // ---------------------------------------------------------------------------------------
  // The laws
  // ---------------------------------------------------------------------------------------

  /** Filling a bucket that was empty or had key `k` is not seen by a lookup of another key. */
  lemma {:induction false} LookupOther<K, V>(b: seq<Bucket<K, V>>, caps: seq<nat>, h: Hasher<K>, k: K, k': K, i: nat, x: Bucket<K, V>, l: nat)
    requires Shaped(b, caps) && l <= |caps| && i < |b| && k' != k
    requires (b[i].key == None || b[i].key == Some(k)) && (x.key == None || x.key == Some(k))
    ensures LookupFrom(b[i := x], caps, h, k', l) == LookupFrom(b, caps, h, k', l)
    decreases |caps| - l
  {
    if l < |caps| {
      HomeInRange(caps, h, k', l);
      LookupOther(b, caps, h, k, k', i, x, l + 1);
    }
  }

  /** After a key is put into the first bucket available to it, its lookup ends there: copies on higher levels are hidden. */
  lemma {:induction false} LookupOccupied<K, V>(b: seq<Bucket<K, V>>, caps: seq<nat>, h: Hasher<K>, k: K, v: Maybe<V>, l: nat)
    requires Shaped(b, caps) && l <= |caps| && OccupyFrom(b, caps, h, k, l).Some?
    ensures var i := OccupyFrom(b, caps, h, k, l).value; LookupFrom(b[i := Bucket(Some(k), v)], caps, h, k, l) == Some(i)
    decreases |caps| - l
  {
    HomeInRange(caps, h, k, l);
    var i, j := OccupyFrom(b, caps, h, k, l).value, Home(caps, h, k, l);
    if j != i { LookupOccupied(b, caps, h, k, v, l + 1); }
  }

  /** A key with no bucket available has no copy. */
  lemma {:induction false} NoneAvailable<K, V>(b: seq<Bucket<K, V>>, caps: seq<nat>, h: Hasher<K>, k: K, l: nat)
    requires Shaped(b, caps) && l <= |caps| && OccupyFrom(b, caps, h, k, l) == None
    ensures LookupFrom(b, caps, h, k, l) == None
    decreases |caps| - l
  {
    if l < |caps| { NoneAvailable(b, caps, h, k, l + 1); }
  }

  /** The home of `k` on level `l` is empty or holds `k`. */
  ghost predicate Available<K, V>(b: seq<Bucket<K, V>>, caps: seq<nat>, h: Hasher<K>, k: K, l: nat)
    requires Shaped(b, caps) && l < |caps|
  {
    HomeInRange(caps, h, k, l);
    b[Home(caps, h, k, l)].key == None || b[Home(caps, h, k, l)].key == Some(k)
  }

  /** Level `l` is the lowest with an available home. */
  ghost predicate FirstAvailable<K, V>(b: seq<Bucket<K, V>>, caps: seq<nat>, h: Hasher<K>, k: K, l: nat)
    requires Shaped(b, caps) && l < |caps|
  {
    Available(b, caps, h, k, l) && forall m :: 0 <= m < l ==> !Available(b, caps, h, k, m)
  }

  /** `Occupy` finds a bucket if and only if some level has an available home, and then takes that of the lowest such level. */
  lemma {:induction false} OccupyLowest<K, V>(b: seq<Bucket<K, V>>, caps: seq<nat>, h: Hasher<K>, k: K, l: nat)
    requires Shaped(b, caps) && l <= |caps| && forall m :: 0 <= m < l ==> !Available(b, caps, h, k, m)
    ensures OccupyFrom(b, caps, h, k, l) == None <==> forall m :: 0 <= m < |caps| ==> !Available(b, caps, h, k, m)
    ensures var r := OccupyFrom(b, caps, h, k, l);
      r.Some? ==> exists m :: 0 <= m < |caps| && FirstAvailable(b, caps, h, k, m) && r == Some(Home(caps, h, k, m))
    decreases |caps| - l
  {
    if l < |caps| {
      HomeInRange(caps, h, k, l);
      if Available(b, caps, h, k, l) {
        assert FirstAvailable(b, caps, h, k, l);
      } else {
        OccupyLowest(b, caps, h, k, l + 1);
      }
    }
  }

  /** The lowest level with an available home is one. */
  lemma LowestIsOne<K, V>(b: seq<Bucket<K, V>>, caps: seq<nat>, h: Hasher<K>, k: K, l: nat)
    requires Shaped(b, caps) && l < |caps| && FirstAvailable(b, caps, h, k, l)
    ensures OccupyFrom(b, caps, h, k, 0) == Some(Home(caps, h, k, l))
  {
    OccupyLowest(b, caps, h, k, 0);
    var m :| 0 <= m < |caps| && FirstAvailable(b, caps, h, k, m) && OccupyFrom(b, caps, h, k, 0) == Some(Home(caps, h, k, m));
    assert m == l;
  }

  /** `Occupy` comes to the visible copy of the key or stops at an empty bucket before it. */
  lemma {:induction false} OccupyFinds<K, V>(b: seq<Bucket<K, V>>, caps: seq<nat>, h: Hasher<K>, k: K, l: nat)
    requires Shaped(b, caps) && l <= |caps| && OccupyFrom(b, caps, h, k, l).Some?
    ensures var i := OccupyFrom(b, caps, h, k, l).value; b[i].key == Some(k) ==> LookupFrom(b, caps, h, k, l) == Some(i)
    decreases |caps| - l
  {
    HomeInRange(caps, h, k, l);
    var j := Home(caps, h, k, l);
    if !(b[j].key == None || b[j].key == Some(k)) { OccupyFinds(b, caps, h, k, l + 1); }
  }

  /** A successful `Set` is an update of the map, whatever stale copies there are. */
  lemma SetIsUpdate<K(!new), V>(b: seq<Bucket<K, V>>, caps: seq<nat>, h: Hasher<K>, m: map<K, V>, k: K, v: V)
    requires Shaped(b, caps) && Shows(b, caps, h, m) && OccupyFrom(b, caps, h, k, 0).Some?
    ensures Shows(SetIn(b, caps, h, k, v, true), caps, h, m[k := v])
  {
    var i := OccupyFrom(b, caps, h, k, 0).value;
    var b' := SetIn(b, caps, h, k, v, true);
    LookupOccupied(b, caps, h, k, Some(v), 0);
    forall k' | k' != k ensures Visible(b', caps, h, k') == Visible(b, caps, h, k') {
      LookupOther(b, caps, h, k, k', i, Bucket(Some(k), Some(v)), 0);
    }
  }

  /** A `Set` that finds no bucket changes nothing, and the key was absent. */
  lemma FailedSetIsAbsent<K(!new), V>(b: seq<Bucket<K, V>>, caps: seq<nat>, h: Hasher<K>, m: map<K, V>, k: K, v: V, memory: bool)
    requires Shaped(b, caps) && Shows(b, caps, h, m) && OccupyFrom(b, caps, h, k, 0) == None
    ensures SetIn(b, caps, h, k, v, memory) == b && k !in m
  {
    NoneAvailable(b, caps, h, k, 0);
    assert Visible(b, caps, h, k) == None;
  }

  /** The lowest available home has the key already. */
  ghost predicate InPlace<K, V>(b: seq<Bucket<K, V>>, caps: seq<nat>, h: Hasher<K>, k: K)
    requires Shaped(b, caps)
  {
    exists l :: 0 <= l < |caps| && FirstAvailable(b, caps, h, k, l) && (HomeInRange(caps, h, k, l); b[Home(caps, h, k, l)].key == Some(k))
  }

  lemma InPlaceIs<K, V>(b: seq<Bucket<K, V>>, caps: seq<nat>, h: Hasher<K>, k: K)
    requires Shaped(b, caps)
    ensures InPlace(b, caps, h, k) <==> var r := OccupyFrom(b, caps, h, k, 0); r.Some? && b[r.value].key == Some(k)
  {
    OccupyLowest(b, caps, h, k, 0);
    forall l | 0 <= l < |caps| && FirstAvailable(b, caps, h, k, l) ensures OccupyFrom(b, caps, h, k, 0) == Some(Home(caps, h, k, l)) {
      LowestIsOne(b, caps, h, k, l);
    }
  }

  /** `k` has taken the home on level `l`, the lowest available, with the value if there was memory for it. */
  ghost predicate Took<K, V>(b: seq<Bucket<K, V>>, b': seq<Bucket<K, V>>, caps: seq<nat>, h: Hasher<K>, k: K, v: V, memory: bool, l: nat)
    requires Shaped(b, caps) && l < |caps|
  {
    HomeInRange(caps, h, k, l);
    var i := Home(caps, h, k, l);
    FirstAvailable(b, caps, h, k, l) && b' == b[i := Bucket(Some(k), if memory then Some(v) else b[i].value)]
  }

  /** A `Set` without memory for the value loses the key unless the key stays in its bucket. */
  lemma NoMemoryLoses<K(!new), V>(b: seq<Bucket<K, V>>, caps: seq<nat>, h: Hasher<K>, m: map<K, V>, k: K, v: V)
    requires Shaped(b, caps) && Tidy(b) && Shows(b, caps, h, m) && OccupyFrom(b, caps, h, k, 0).Some?
    ensures Shows(SetIn(b, caps, h, k, v, false), caps, h, if InPlace(b, caps, h, k) then m else m - {k})
  {
    var i := OccupyFrom(b, caps, h, k, 0).value;
    var b' := SetIn(b, caps, h, k, v, false);
    InPlaceIs(b, caps, h, k);
    LookupOccupied(b, caps, h, k, b[i].value, 0);
    OccupyFinds(b, caps, h, k, 0);
    assert Visible(b, caps, h, k) == if k in m then Some(m[k]) else None;
    forall k' | k' != k ensures Visible(b', caps, h, k') == Visible(b, caps, h, k') {
      LookupOther(b, caps, h, k, k', i, b'[i], 0);
    }
  }

  lemma {:induction false} LookupDeleted<K, V>(b: seq<Bucket<K, V>>, caps: seq<nat>, h: Hasher<K>, k: K, k': K, l: nat)
    requires Shaped(b, caps) && l <= |caps|
    ensures LookupFrom(DeleteIn(b, k), caps, h, k', l) == if k' == k then None else LookupFrom(b, caps, h, k', l)
    decreases |caps| - l
  {
    if l < |caps| {
      HomeInRange(caps, h, k', l);
      LookupDeleted(b, caps, h, k, k', l + 1);
    }
  }

  /** `Delete` takes all copies, so that none becomes visible later. */
  lemma DeleteIsRemoval<K(!new), V>(b: seq<Bucket<K, V>>, caps: seq<nat>, h: Hasher<K>, m: map<K, V>, k: K)
    requires Shaped(b, caps) && Shows(b, caps, h, m)
    ensures Shows(DeleteIn(b, k), caps, h, m - {k})
  {
    forall k' ensures Visible(DeleteIn(b, k), caps, h, k') == if k' == k then None else Visible(b, caps, h, k') {
      LookupDeleted(b, caps, h, k, k', 0);
    }
  }

  lemma ShapeKept<K, V>(b: seq<Bucket<K, V>>, caps: seq<nat>, h: Hasher<K>, k: K, v: V, memory: bool)
    requires Shaped(b, caps)
    ensures Shaped(SetIn(b, caps, h, k, v, memory), caps) && Shaped(DeleteIn(b, k), caps)
  {
  }

  lemma DeleteTidy<K, V>(b: seq<Bucket<K, V>>, caps: seq<nat>, k: K)
    requires Shaped(b, caps) && Tidy(b)
    ensures Shaped(DeleteIn(b, k), caps) && Tidy(DeleteIn(b, k))
  {
  }

  /** Key 1 is set, key 2 is set, and key 1 is deleted. */
  ghost function HoleHistory(caps: seq<nat>, h: Hasher<nat>): (b: seq<Bucket<nat, nat>>)
    requires Levels(caps)
    ensures Shaped(b, caps)
  {
    var b0 := seq(Base(caps, |caps|), _ => Bucket(None, None));
    ShapeKept<nat, nat>(b0, caps, h, 1, 10, true);
    var b1 := SetIn(b0, caps, h, 1, 10, true);
    ShapeKept<nat, nat>(b1, caps, h, 2, 20, true);
    DeleteIn(SetIn(b1, caps, h, 2, 20, true), 1)
  }

  lemma HoleIs()
    ensures Levels([1, 1])
    ensures HoleHistory([1, 1], k => k) == [Bucket(None, None), Bucket(Some(2), Some(20))]
  {
    var caps: seq<nat>, h := [1, 1], (k: nat) => k;
    assert Base(caps, 1) == 1 && Base(caps, 2) == 2;
    var b0: seq<Bucket<nat, nat>> := seq(Base(caps, |caps|), _ => Bucket(None, None));
    assert b0 == [Bucket(None, None), Bucket(None, None)];
    assert Home(caps, h, 1, 0) == 0 && Home(caps, h, 2, 0) == 0 && Home(caps, h, 2, 1) == 1;
    assert OccupyFrom(b0, caps, h, 1, 0) == Some(0);
    var b1 := SetIn(b0, caps, h, 1, 10, true);
    assert b1 == [Bucket(Some(1), Some(10)), Bucket(None, None)];
    assert OccupyFrom(b1, caps, h, 2, 1) == Some(1);
    assert OccupyFrom(b1, caps, h, 2, 0) == Some(1);
    var b2 := SetIn(b1, caps, h, 2, 20, true);
    assert b2 == [Bucket(Some(1), Some(10)), Bucket(Some(2), Some(20))];
  }

  /** Key 1 is set, key 2 is set, key 1 is deleted and key 2 is set again. */
  ghost function StaleHistory(caps: seq<nat>, h: Hasher<nat>): seq<Bucket<nat, nat>>
    requires Levels(caps)
  {
    SetIn(HoleHistory(caps, h), caps, h, 2, 21, true)
  }

  /** With two levels of one bucket a second copy of key 2 stays behind on level 1, with its old value. */
  lemma StaleCopy()
    ensures Levels([1, 1])
    ensures StaleHistory([1, 1], k => k) == [Bucket(Some(2), Some(21)), Bucket(Some(2), Some(20))]
  {
    HoleIs();
    var caps: seq<nat>, h := [1, 1], (k: nat) => k;
    assert Home(caps, h, 2, 0) == 0;
    assert OccupyFrom(HoleHistory(caps, h), caps, h, 2, 0) == Some(0);
  }

  /** After key 1 is deleted, setting key 2 without memory for the value takes the hole before its copy, and the key is lost. */
  lemma LostInHole()
    ensures Levels([1, 1])
    ensures var b := HoleHistory([1, 1], k => k);
      && Shaped(b, [1, 1]) && Tidy(b) && Shows(b, [1, 1], k => k, map[2 := 20])
      && OccupyFrom(b, [1, 1], k => k, 2, 0).Some? && !InPlace(b, [1, 1], k => k, 2)
      && Shows(SetIn(b, [1, 1], k => k, 2, 21, false), [1, 1], k => k, map[])
  {
    var caps: seq<nat>, h := [1, 1], (k: nat) => k;
    var b := HoleHistory(caps, h);
    HoleIs();
    assert Base(caps, 1) == 1 && Base(caps, 2) == 2;
    forall k: nat ensures Visible(b, caps, h, k) == if k == 2 then Some(20) else None {
      assert Home(caps, h, k, 0) == 0 && Home(caps, h, k, 1) == 1;
      assert LookupFrom(b, caps, h, k, 1) == if k == 2 then Some(1) else None;
    }
    assert Home(caps, h, 2, 0) == 0;
    NoMemoryLoses(b, caps, h, map[2 := 20], 2, 21);
    assert map[2 := 20] - {2} == map[];
  }

  // ---------------------------------------------------------------------------------------
  // The map
  // ---------------------------------------------------------------------------------------

  class Hashmap<K(==, !new), V> {
    const hash: Hasher<K>
    const caps: seq<nat>
    const buckets: array<Bucket<K, V>>
    ghost var contents: map<K, V>

    ghost predicate Valid()
      reads this, buckets
    {
      Shaped(buckets[..], caps) && Tidy(buckets[..]) && Shows(buckets[..], caps, hash, contents)
    }

    constructor (hash: Hasher<K>, caps: seq<nat>)
      requires Levels(caps)
      ensures Valid() && contents == map[] && fresh(buckets) && this.hash == hash && this.caps == caps
    {
      this.hash := hash;
      this.caps := caps;
      buckets := new Bucket<K, V>[Base(caps, |caps|)](_ => Bucket(None, None));
      contents := map[];
    }

    method Lookup(k: K) returns (r: Maybe<nat>)
      requires Valid()
      ensures r == LookupFrom(buckets[..], caps, hash, k, 0)
    {
      var base: nat := 0;
      for i := 0 to |caps|
        invariant base == Base(caps, i)
        invariant LookupFrom(buckets[..], caps, hash, k, i) == LookupFrom(buckets[..], caps, hash, k, 0)
      {
        HomeInRange(caps, hash, k, i);
        var bucket := base + hash(k) % caps[i];
        if buckets[bucket].key == Some(k) { return Some(bucket); }
        base := base + caps[i];
      }
      return None;
    }

    /** `Occupy`: the key is written into the first bucket that is empty or has the key. */
    method Occupy(k: K) returns (r: Maybe<nat>)
      requires Valid()
      modifies buckets
      ensures r == old(OccupyFrom(buckets[..], caps, hash, k, 0))
      ensures r == None <==> forall l :: 0 <= l < |caps| ==> !old(Available(buckets[..], caps, hash, k, l))
      ensures r.Some? ==> r.value < buckets.Length
      ensures r.Some? ==> exists l :: 0 <= l < |caps| && old(FirstAvailable(buckets[..], caps, hash, k, l)) && r.value == Home(caps, hash, k, l)
      ensures buckets[..] == if r == None then old(buckets[..])
                             else old(buckets[..])[r.value := Bucket(Some(k), old(buckets[..])[r.value].value)]
    {
      OccupyLowest(buckets[..], caps, hash, k, 0);
      var base: nat := 0;
      for i := 0 to |caps|
        invariant base == Base(caps, i) && buckets[..] == old(buckets[..])
        invariant OccupyFrom(buckets[..], caps, hash, k, i) == old(OccupyFrom(buckets[..], caps, hash, k, 0))
      {
        HomeInRange(caps, hash, k, i);
        var bucket := base + hash(k) % caps[i];
        if buckets[bucket].key == None || buckets[bucket].key == Some(k) {
          buckets[bucket] := buckets[bucket].(key := Some(k));
          return Some(bucket);
        }
        base := base + caps[i];
      }
      return None;
    }

    method Get(k: K) returns (r: Maybe<V>)
      requires Valid()
      ensures r == if k in contents then Some(contents[k]) else None
    {
      assert Visible(buckets[..], caps, hash, k) == if k in contents then Some(contents[k]) else None;
      var i := Lookup(k);
      r := if i.Some? then buckets[i.value].value else None;
    }

    /**
     `memory` says whether the value can be allocated. There is no entry exactly if every home of the key holds another
     key; otherwise the bucket taken is that of the lowest level whose home is empty or holds the key, and no other changes.
     */
    method Set(k: K, v: V, memory: bool) returns (code: Code)
      requires Valid()
      modifies `contents, buckets
      ensures Valid()
      ensures code == NoEntry <==> forall l :: 0 <= l < |caps| ==> !old(Available(buckets[..], caps, hash, k, l))
      ensures code == NoEntry ==> contents == old(contents) && buckets[..] == old(buckets[..]) && k !in contents
      ensures code != NoEntry ==> (code == Ok <==> memory)
      ensures code == Ok ==> contents == old(contents)[k := v]
      ensures code == NoMemory ==> contents == if old(InPlace(buckets[..], caps, hash, k)) then old(contents) else old(contents) - {k}
      ensures code != NoEntry ==> exists l :: 0 <= l < |caps| && Took(old(buckets[..]), buckets[..], caps, hash, k, v, memory, l)
    {
      ghost var b := buckets[..];
      var i := Occupy(k);
      if i == None {
        FailedSetIsAbsent(b, caps, hash, contents, k, v, memory);
        return NoEntry;
      }
      ghost var l :| 0 <= l < |caps| && FirstAvailable(b, caps, hash, k, l) && i.value == Home(caps, hash, k, l);
      if !memory {
        NoMemoryLoses(b, caps, hash, contents, k, v);
        contents := if InPlace(b, caps, hash, k) then contents else contents - {k};
        assert Took(b, buckets[..], caps, hash, k, v, memory, l);
        return NoMemory;
      }
      SetIsUpdate(b, caps, hash, contents, k, v);
      buckets[i.value] := buckets[i.value].(value := Some(v));
      assert buckets[..] == SetIn(b, caps, hash, k, v, true);
      assert Took(b, buckets[..], caps, hash, k, v, memory, l);
      contents := contents[k := v];
      return Ok;
    }

    /** `Delete`: every bucket that has the key is cleaned. */
    method Delete(k: K)
      requires Valid()
      modifies `contents, buckets
      ensures Valid() && contents == old(contents) - {k}
      ensures forall i :: 0 <= i < buckets.Length ==> buckets[i].key != Some(k)
    {
      hide Shaped, Shows, Tidy, Visible;
      ghost var b := buckets[..];
      for i := 0 to buckets.Length
        invariant contents == old(contents)
        invariant forall j :: 0 <= j < buckets.Length ==> buckets[j] == if j < i then DeleteIn(b, k)[j] else b[j]
      {
        if buckets[i].key == Some(k) { buckets[i] := Bucket(None, None); }
      }
      assert buckets[..] == DeleteIn(b, k);
      DeleteIsRemoval(b, caps, hash, contents, k);
      DeleteTidy(b, caps, k);
      contents := contents - {k};
    }
  }
}
