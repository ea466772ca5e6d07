/**
 The list of retired objects, linked through the objects themselves: pushed at the head, appended at the tail, cleaned
 up in place, and moved piece by piece to another list.
 */
module RetiredList {

  datatype Garbage = Garbage(address: nat)

  datatype Pointer = Null | To(target: Garbage)

  /** The next fields of all objects; an object without an entry has a null field. */
  type Links = map<Garbage, Garbage>

  function Get(next: Links, x: Garbage): Pointer { if x in next then To(next[x]) else Null }

  function Set(next: Links, x: Garbage, p: Pointer): Links { if p.To? then next[x := p.target] else next - {x} }

  function Nth(s: seq<Garbage>, i: int): Pointer { if 0 <= i < |s| then To(s[i]) else Null }

  ghost predicate Distinct(s: seq<Garbage>) { forall i, j :: 0 <= i < j < |s| ==> s[i] != s[j] }

  ghost predicate LinkAt(next: Links, s: seq<Garbage>, i: nat)
    requires i < |s|
  {
    Get(next, s[i]) == Nth(s, i + 1)
  }

  /** Each object of `s` is linked to the one after it, the last to none. */
  ghost predicate Linked(next: Links, s: seq<Garbage>) {
    Distinct(s) && forall i :: 0 <= i < |s| ==> LinkAt(next, s, i)
  }

  /** The protected objects of `s`, in order. */
  ghost function Kept(s: seq<Garbage>, safe: set<Garbage>): (r: seq<Garbage>)
    ensures forall x :: x in r <==> x in s && x in safe
  {
    if s == [] then [] else
      var n := |s| - 1;
      Kept(s[..n], safe) + if s[n] in safe then [s[n]] else []
  }

  /** The protected objects of `s`, last first. */
  ghost function Moved(s: seq<Garbage>, safe: set<Garbage>): (r: seq<Garbage>)
    ensures forall x :: x in r <==> x in s && x in safe
  {
    if s == [] then [] else
      var n := |s| - 1;
      (if s[n] in safe then [s[n]] else []) + Moved(s[..n], safe)
  }

  /** The unprotected objects of `s`, in the order in which they are destroyed. */
  ghost function Dropped(s: seq<Garbage>, safe: set<Garbage>): (r: seq<Garbage>)
    ensures forall x :: x in r <==> x in s && x !in safe
  {
    if s == [] then [] else
      var n := |s| - 1;
      Dropped(s[..n], safe) + if s[n] in safe then [] else [s[n]]
  }

  // ---------------------------------------------------------------------------------------
  // Facts about the lists
  // ---------------------------------------------------------------------------------------

  /** What is kept, moved or dropped is so once. */
  lemma {:induction false} KeptDistinct(s: seq<Garbage>, safe: set<Garbage>)
    requires Distinct(s)
    ensures Distinct(Kept(s, safe)) && Distinct(Moved(s, safe)) && Distinct(Dropped(s, safe))
  {
    if s != [] { KeptDistinct(s[..|s| - 1], safe); }
  }

  ghost predicate Before(s: seq<Garbage>, x: Garbage, y: Garbage) { exists i, j :: 0 <= i < j < |s| && s[i] == x && s[j] == y }

  lemma BeforeOn(s: seq<Garbage>, t: seq<Garbage>, x: Garbage, y: Garbage)
    requires Before(s, x, y) || Before(t, x, y) || (x in s && y in t)
    ensures Before(s + t, x, y)
  {
    var r := s + t;
    if Before(s, x, y) {
      var i, j :| 0 <= i < j < |s| && s[i] == x && s[j] == y;
      assert r[i] == x && r[j] == y;
    } else if Before(t, x, y) {
      var i, j :| 0 <= i < j < |t| && t[i] == x && t[j] == y;
      assert r[|s| + i] == x && r[|s| + j] == y;
    } else {
      var i :| 0 <= i < |s| && s[i] == x;
      var j :| 0 <= j < |t| && t[j] == y;
      assert r[i] == x && r[|s| + j] == y;
    }
  }

  /** What is kept or dropped is so in the order of the list, what is moved in the reverse order. */
  lemma {:induction false} OrderKept(s: seq<Garbage>, safe: set<Garbage>, x: Garbage, y: Garbage)
    requires Before(s, x, y)
    ensures x in safe && y in safe ==> Before(Kept(s, safe), x, y) && Before(Moved(s, safe), y, x)
    ensures x !in safe && y !in safe ==> Before(Dropped(s, safe), x, y)
  {
    var n := |s| - 1;
    var i, j :| 0 <= i < j < |s| && s[i] == x && s[j] == y;
    var last := [s[n]];
    if j < n {
      assert Before(s[..n], x, y) by { assert s[..n][i] == x && s[..n][j] == y; }
      OrderKept(s[..n], safe, x, y);
    } else {
      assert s[..n][i] == x && y in last;
    }
    if x in safe && y in safe {
      BeforeOn(Kept(s[..n], safe), if s[n] in safe then last else [], x, y);
      BeforeOn(if s[n] in safe then last else [], Moved(s[..n], safe), y, x);
    }
    if x !in safe && y !in safe { BeforeOn(Dropped(s[..n], safe), if s[n] in safe then [] else last, x, y); }
  }

  lemma Nothing(safe: set<Garbage>)
    ensures Kept([], safe) == Moved([], safe) == Dropped([], safe) == []
  {
  }

  lemma OneMore(s: seq<Garbage>, k: nat, safe: set<Garbage>)
    requires k < |s|
    ensures Kept(s[..k + 1], safe) == Kept(s[..k], safe) + if s[k] in safe then [s[k]] else []
    ensures Moved(s[..k + 1], safe) == (if s[k] in safe then [s[k]] else []) + Moved(s[..k], safe)
    ensures Dropped(s[..k + 1], safe) == Dropped(s[..k], safe) + if s[k] in safe then [] else [s[k]]
  {
    assert s[..k + 1][..k] == s[..k];
  }

  lemma LinkedFrame(next: Links, next': Links, s: seq<Garbage>)
    requires Linked(next, s) && forall x :: x in s ==> Get(next', x) == Get(next, x)
    ensures Linked(next', s)
  {
    forall i | 0 <= i < |s| ensures LinkAt(next', s, i) { assert LinkAt(next, s, i); }
  }

  lemma PushLinked(next: Links, s: seq<Garbage>, p: Garbage)
    requires Linked(next, s) && p !in s
    ensures Linked(Set(next, p, Nth(s, 0)), [p] + s)
  {
    var next' := Set(next, p, Nth(s, 0));
    forall i | 0 <= i < |[p] + s| ensures LinkAt(next', [p] + s, i) {
      if i > 0 { assert LinkAt(next, s, i - 1); }
    }
  }

  lemma TailLinked(next: Links, s: seq<Garbage>)
    requires Linked(next, s) && s != []
    ensures Linked(next, s[1..]) && Get(next, s[0]) == Nth(s[1..], 0) && s[0] !in s[1..]
  {
    assert LinkAt(next, s, 0);
    forall i | 0 <= i < |s| - 1 ensures LinkAt(next, s[1..], i) { assert LinkAt(next, s, i + 1); }
  }

  lemma JoinLinked(next: Links, s: seq<Garbage>, t: seq<Garbage>)
    requires Linked(next, s) && Linked(next, t) && s != [] && t != [] && forall x :: x in s ==> x !in t
    ensures Linked(Set(next, s[|s| - 1], Nth(t, 0)), s + t)
  {
    var next', j := Set(next, s[|s| - 1], Nth(t, 0)), s + t;
    forall i | 0 <= i < |j| ensures LinkAt(next', j, i) {
      if i < |s| - 1 { assert LinkAt(next, s, i); }
      else if i >= |s| { assert LinkAt(next, t, i - |s|) && t[i - |s|] in t && s[|s| - 1] in s; }
    }
    forall i, k | 0 <= i < k < |j| ensures j[i] != j[k] {
      if i < |s| <= k { assert j[i] in s && j[k] in t; }
    }
  }

  // ---------------------------------------------------------------------------------------
  // The sweep of cleanup
  // ---------------------------------------------------------------------------------------

  /** `kept` and, behind it, what the sweep has yet to see are linked in one chain. */
  ghost predicate Swept(next: Links, was: seq<Garbage>, k: nat, kept: seq<Garbage>, safe: set<Garbage>) {
    && k <= |was| && Distinct(was) && kept == Kept(was[..k], safe) && kept != []
    && Linked(next, kept + was[k..])
  }

  /** Unlinking an unprotected object from behind the last kept one. */
  lemma SweepDrop(next: Links, was: seq<Garbage>, k: nat, kept: seq<Garbage>, safe: set<Garbage>)
    requires Swept(next, was, k, kept, safe) && k < |was| && was[k] !in safe
    ensures Get(next, was[k]) == Nth(was, k + 1)
    ensures Swept(Set(next, kept[|kept| - 1], Nth(was, k + 1)), was, k + 1, kept, safe)
  {
    OneMore(was, k, safe);
    var m, chain := |kept| - 1, kept + was[k..];
    assert LinkAt(next, chain, m + 1);
    DropLinked(next, chain, m);
    assert chain[..m + 1] + chain[m + 2..] == kept + was[k + 1..];
  }

  /** Linking past the object behind position `m` takes it out. */
  lemma DropLinked(next: Links, s: seq<Garbage>, m: nat)
    requires Linked(next, s) && m + 1 < |s|
    ensures Linked(Set(next, s[m], Nth(s, m + 2)), s[..m + 1] + s[m + 2..])
  {
    var next', r := Set(next, s[m], Nth(s, m + 2)), s[..m + 1] + s[m + 2..];
    forall i | 0 <= i < |r| ensures LinkAt(next', r, i) {
      var j := if i <= m then i else i + 1;
      assert r[i] == s[j] && LinkAt(next, s, j);
    }
  }

  lemma LinkedDistinct(next: Links, s: seq<Garbage>)
    requires Linked(next, s)
    ensures Distinct(s)
  {
  }

  lemma SweepKeep(next: Links, was: seq<Garbage>, k: nat, kept: seq<Garbage>, safe: set<Garbage>)
    requires Swept(next, was, k, kept, safe) && k < |was| && was[k] in safe
    ensures Get(next, was[k]) == Nth(was, k + 1)
    ensures Swept(next, was, k + 1, kept + [was[k]], safe)
  {
    OneMore(was, k, safe);
    var chain := kept + was[k..];
    assert LinkAt(next, chain, |kept|);
    assert kept + [was[k]] + was[k + 1..] == chain;
  }

  lemma SweepBegins(next: Links, was: seq<Garbage>, k: nat, safe: set<Garbage>)
    requires k < |was| && Linked(next, was[k..]) && Distinct(was) && was[k] in safe && Kept(was[..k], safe) == []
    ensures Swept(next, was, k + 1, [was[k]], safe) && Get(next, was[k]) == Nth(was, k + 1)
  {
    OneMore(was, k, safe);
    assert LinkAt(next, was[k..], 0);
    assert [was[k]] + was[k + 1..] == was[k..];
  }

  lemma SweepEnds(next: Links, was: seq<Garbage>, kept: seq<Garbage>, safe: set<Garbage>)
    requires Swept(next, was, |was|, kept, safe)
    ensures Linked(next, kept) && kept == Kept(was, safe)
  {
    assert was[..|was|] == was && kept + was[|was|..] == kept;
  }

  // ---------------------------------------------------------------------------------------
  // The lists
  // ---------------------------------------------------------------------------------------

  /** The next fields, and which objects have been destroyed, in order. */
  class Memory {
    var next: Links
    ghost var destroyed: seq<Garbage>

    constructor ()
      ensures next == map[] && destroyed == []
    {
      next, destroyed := map[], [];
    }
  }

  class RetiredList {
    const memory: Memory
    var head: Pointer
    var tail: Pointer
    ghost var items: seq<Garbage>

    /** As `Valid`, but the tail of an empty list is not looked at. */
    ghost predicate Loose()
      reads this, memory
    {
      && Linked(memory.next, items) && head == Nth(items, 0) && (items != [] ==> tail == Nth(items, |items| - 1))
    }

    /** `items` are linked from head to tail. */
    ghost predicate Valid()
      reads this, memory
    {
      Loose() && tail == Nth(items, |items| - 1)
    }

    constructor (memory: Memory)
      ensures Valid() && items == [] && this.memory == memory
    {
      this.memory, head, tail, items := memory, Null, Null, [];
    }

    /** The move constructor takes the head alone: neither list is sound afterwards unless there was nothing to move. */
    constructor MovedFrom(other: RetiredList)
      requires other.Valid()
      modifies other
      ensures memory == other.memory && items == old(other.items) && other.items == []
      ensures Valid() <==> items == []
      ensures other.Valid() <==> items == []
    {
      memory, head, tail, items := other.memory, other.head, Null, other.items;
      new;
      other.head := Null;
      other.items := [];
    }

    method Push(p: Garbage)
      requires Valid() && p !in items
      modifies this, memory`next
      ensures Valid() && items == [p] + old(items)
      ensures memory.next == Set(old(memory.next), p, Nth(old(items), 0))
    {
      PushLinked(memory.next, items, p);
      memory.next := Set(memory.next, p, head);
      head := To(p);
      if Get(memory.next, p) == Null { tail := To(p); }
      items := [p] + items;
    }

    /** `append`: the other list ends up empty. */
    method Append(other: RetiredList)
      requires Valid() && other.Valid() && other != this && other.memory == memory
      requires forall x :: x in items ==> x !in other.items
      modifies this, other, memory`next
      ensures Valid() && other.Valid() && items == old(items) + old(other.items) && other.items == []
    {
      ghost var mine, theirs := items, other.items;
      if head == Null {
        assert mine == [] && mine + theirs == theirs;
        head, tail := other.head, other.tail;
        other.head, other.tail := Null, Null;
      } else if other.head != Null {
        JoinLinked(memory.next, mine, theirs);
        memory.next := Set(memory.next, tail.target, other.head);
        other.head := Null;
        tail := other.tail;
        other.tail := Null;
      } else {
        assert theirs == [] && mine + theirs == mine;
      }
      items, other.items := mine + theirs, [];
    }

    /** `std::exchange(head, head->get_next())`. */
    method TakeHead() returns (x: Garbage)
      requires Loose() && items != []
      modifies this
      ensures Loose() && x == old(items[0]) && items == old(items)[1..] && tail == old(tail)
    {
      TailLinked(memory.next, items);
      x := head.target;
      head := Get(memory.next, x);
      items := items[1..];
    }

    /** `cleanup`: what is not protected is destroyed, once, in order; what is protected stays, in order. */
    method Cleanup(safe: set<Garbage>)
      requires Valid()
      modifies this, memory
      ensures Valid() && items == Kept(old(items), safe)
      ensures memory.destroyed == old(memory.destroyed) + Dropped(old(items), safe)
    {
      hide Kept, Dropped, Moved, LinkAt, Set, Get;
      ghost var was, gone, k: nat := items, memory.destroyed, 0;
      Nothing(safe);
      assert was[..0] == [] && was[0..] == was;
      while head != Null && head.target !in safe
        invariant k <= |was| && Loose() && items == was[k..] && Kept(was[..k], safe) == []
        invariant memory.destroyed == gone + Dropped(was[..k], safe)
        decreases |was| - k
      {
        OneMore(was, k, safe);
        var x := TakeHead();
        memory.destroyed := memory.destroyed + [x];
        k := k + 1;
      }
      if head == Null {
        tail := Null;
        assert was[..k] == was;
      } else {
        Sweep(was, k, gone, safe);
      }
    }

    /** The second loop of `cleanup`, behind a protected head. */
    method Sweep(ghost was: seq<Garbage>, ghost from: nat, ghost gone: seq<Garbage>, safe: set<Garbage>)
      requires Loose() && from < |was| && items == was[from..] && was[from] in safe && Distinct(was)
      requires Kept(was[..from], safe) == [] && memory.destroyed == gone + Dropped(was[..from], safe)
      modifies this, memory
      ensures Valid() && items == Kept(was, safe) && memory.destroyed == gone + Dropped(was, safe)
    {
      hide Kept, Dropped, Moved, LinkAt, Linked, Set, Get, Distinct;
      SweepBegins(memory.next, was, from, safe);
      OneMore(was, from, safe);
      var prev: Garbage := head.target;
      var current := Get(memory.next, prev);
      ghost var k: nat, kept := from + 1, [prev];
      while current != Null
        invariant Swept(memory.next, was, k, kept, safe) && current == Nth(was, k)
        invariant prev == kept[|kept| - 1] && head == To(kept[0])
        invariant memory.destroyed == gone + Dropped(was[..k], safe)
        decreases |was| - k
      {
        OneMore(was, k, safe);
        if current.target !in safe {
          SweepDrop(memory.next, was, k, kept, safe);
          var x := current.target;
          current := Get(memory.next, x);
          memory.destroyed := memory.destroyed + [x];
          memory.next := Set(memory.next, prev, current);
        } else {
          SweepKeep(memory.next, was, k, kept, safe);
          kept := kept + [current.target];
          prev := current.target;
          current := Get(memory.next, prev);
        }
        k := k + 1;
      }
      SweepEnds(memory.next, was, kept, safe);
      assert was[..k] == was;
      tail := To(prev);
      items := kept;
    }

    /** `eject_and_move`: the first `n` leave; the protected ones are pushed onto `into`, the others destroyed, once. */
    method EjectAndMove(n: nat, into: RetiredList, safe: set<Garbage>)
      requires Valid() && into.Valid() && into != this && into.memory == memory
      requires forall x :: x in items ==> x !in into.items
      modifies this, into, memory
      ensures Valid() && into.Valid()
      ensures var m := if n < |old(items)| then n else |old(items)|;
        && items == old(items)[m..]
        && into.items == Moved(old(items)[..m], safe) + old(into.items)
        && memory.destroyed == old(memory.destroyed) + Dropped(old(items)[..m], safe)
    {
      hide Kept, Dropped, Moved, Linked, LinkAt, Distinct, Set, Get;
      LinkedDistinct(memory.next, items);
      ghost var was, theirs, gone, k: nat := items, into.items, memory.destroyed, 0;
      var left: nat := n;
      Nothing(safe);
      assert was[..0] == [] && was[0..] == was;
      while head != Null && left > 0
        invariant k <= |was| && left + k == n && Loose() && items == was[k..]
        invariant into.Valid() && into.items == Moved(was[..k], safe) + theirs
        invariant memory.destroyed == gone + Dropped(was[..k], safe)
        decreases left
      {
        OneMore(was, k, safe);
        var x := TakeHead();
        if x in safe {
          MovedApart(memory.next, was, k, safe, theirs, into.items);
          into.Push(x);
        } else {
          memory.destroyed := memory.destroyed + [x];
        }
        left, k := left - 1, k + 1;
      }
      if head == Null { tail := Null; }
    }
  }

  /** Pushing the next object elsewhere leaves what is still to come linked. */
  lemma MovedApart(next: Links, was: seq<Garbage>, k: nat, safe: set<Garbage>, theirs: seq<Garbage>, into: seq<Garbage>)
    requires k < |was| && Distinct(was) && Linked(next, was[k + 1..]) && into == Moved(was[..k], safe) + theirs
    requires forall x :: x in was ==> x !in theirs
    ensures was[k] !in into && Linked(Set(next, was[k], Nth(into, 0)), was[k + 1..])
  {
    LinkedFrame(next, Set(next, was[k], Nth(into, 0)), was[k + 1..]);
  }
}
