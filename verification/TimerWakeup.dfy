/** How long the wheel can sleep: what `ticks_to_wakeup` computes, when it is right, and when it is not. */
module TimerWakeup {
  import opened TimerWheelModel

  function Min(a: int, b: int): int { if a < b then a else b }

  /** The least of `m` and the distances of the events of a list. */
  ghost function Nearest(w: Wheel, l: seq<Event>, m: int): int
    requires forall i :: 0 <= i < |l| ==> l[i] in w.at
  {
    if l == [] then m else Nearest(w, l[1..], Min(m, w.at[l[0]] - w.now))
  }

  ghost predicate Sound(w: Wheel) { Valid(w) && Clear(w, 0) }

  lemma SlotKnown(w: Wheel, a: nat)
    requires Valid(w) && a < LEVELS * SLOTS
    ensures |w.slots| == LEVELS * SLOTS && forall i :: 0 <= i < |w.slots[a]| ==> w.slots[a][i] in w.at
  {
    forall i | 0 <= i < |w.slots[a]| ensures w.slots[a][i] in w.at { assert w.slots[a][i] in w.slot; }
  }

  /** The `i`-th slot after the current one of a level. */
  function After(w: Wheel, level: nat, i: nat): nat { level * SLOTS + (Shift(w.now, level) + 1 + i) % SLOTS }

  function UpSlot(w: Wheel, level: nat): nat { (level + 1) * SLOTS + (Shift(w.now, level + 1) + 1) % SLOTS }

  /** Whether the search looks at the next slot of the level above. */
  ghost predicate LooksUp(w: Wheel, level: nat, i: nat)
    requires Valid(w) && level < LEVELS
  {
    After(w, level, i) % SLOTS == 0 && level < LEVELS - 1 && (level > 0 || (SlotKnown(w, level * SLOTS); w.slots[level * SLOTS] == []))
  }

  /** `ticks_to_wakeup` at `level`, its loop being at slot `i` with `m` the least found so far. */
  ghost function WakeFrom(w: Wheel, max: nat, level: nat, i: nat, m: int): int
    requires Valid(w) && level < LEVELS && i <= SLOTS
    decreases LEVELS - level, SLOTS - i
  {
    if i == SLOTS then
      if level < LEVELS - 1 && Shift(max, level) / 2 > 0 then WakeFrom(w, max, level + 1, 0, max) else max
    else
      var up := if LooksUp(w, level, i) then (SlotKnown(w, UpSlot(w, level)); Nearest(w, w.slots[UpSlot(w, level)], m)) else m;
      SlotKnown(w, After(w, level, i));
      var l := w.slots[After(w, level, i)];
      if l == [] then WakeFrom(w, max, level, i + 1, up)
      else if level == 0 then Min(up, w.at[l[0]] - w.now)
      else Nearest(w, l, up)
  }

  /** `r` is `max` or the distance of an event on one of the levels, so never less than what is right. */
  ghost predicate Attained(w: Wheel, max: nat, low: nat, high: nat, r: int)
    requires Valid(w)
  {
    r <= max && (r == max || exists e :: e in w.slot && low <= w.slot[e] / SLOTS <= high && r == w.at[e] - w.now)
  }

  /** `r` is the least of `max` and the distance to the earliest event. */
  ghost predicate Earliest(w: Wheel, max: nat, r: int)
    requires Valid(w)
  {
    Attained(w, max, 0, LEVELS - 1, r) && forall e :: e in w.slot ==> r <= w.at[e] - w.now
  }

  /** The same, but for the events of a level and the next. */
  ghost predicate EarliestOn(w: Wheel, max: nat, level: nat, r: int)
    requires Valid(w)
  {
    && Attained(w, max, level, level + 1, r)
    && forall e :: e in w.slot && level <= w.slot[e] / SLOTS <= level + 1 ==> r <= w.at[e] - w.now
  }

  lemma {:induction false} NearestIs(w: Wheel, l: seq<Event>, m: int)
    requires forall i :: 0 <= i < |l| ==> l[i] in w.at
    ensures var r := Nearest(w, l, m);
      && r <= m && (forall i :: 0 <= i < |l| ==> r <= w.at[l[i]] - w.now)
      && (r == m || exists i :: 0 <= i < |l| && r == w.at[l[i]] - w.now)
  {
    if l != [] {
      var m' := Min(m, w.at[l[0]] - w.now);
      NearestIs(w, l[1..], m');
      var r := Nearest(w, l, m);
      forall i | 0 <= i < |l| ensures r <= w.at[l[i]] - w.now { if i > 0 { assert l[i] == l[1..][i - 1]; } }
      if r != m && r != w.at[l[0]] - w.now {
        var i :| 0 <= i < |l[1..]| && r == w.at[l[1..][i]] - w.now;
        assert l[i + 1] == l[1..][i];
      }
    }
  }

  /** How many slots ahead an event is on its level. */
  ghost function Ahead(w: Wheel, e: Event): int
    requires e in w.slot && e in w.at
  {
    Shift(w.at[e], w.slot[e] / SLOTS) - Shift(w.now, w.slot[e] / SLOTS)
  }

  lemma EventAhead(w: Wheel, e: Event)
    requires Sound(w) && e in w.slot
    ensures e in w.at && 0 < Ahead(w, e) < SLOTS && w.now < w.at[e] && w.slot[e] < LEVELS * SLOTS
    ensures w.slot[e] == After(w, w.slot[e] / SLOTS, Ahead(w, e) - 1) && e in w.slots[w.slot[e]]
  {
    ClearAhead(w, e);
  }

  /** An event of a slot that the search reaches at `i` is `i + 1` slots ahead. */
  lemma ReachedAt(w: Wheel, e: Event, level: nat, i: nat)
    requires Sound(w) && e in w.slot && i < SLOTS && w.slot[e] == After(w, level, i)
    ensures e in w.at && w.slot[e] / SLOTS == level && Ahead(w, e) == i + 1
  {
    EventAhead(w, e);
    SameDigit(Shift(w.now, level), i, Ahead(w, e) - 1);
  }

  lemma SameDigit(x: nat, i: nat, j: nat)
    requires i < SLOTS && j < SLOTS && (x + 1 + i) % SLOTS == (x + 1 + j) % SLOTS
    ensures i == j
  {
  }

  /** What is later on some level is later. */
  lemma Later(x: nat, y: nat, l: nat)
    requires Shift(x, l) < Shift(y, l)
    ensures x < y
  {
    if y <= x { ShiftMono(y, x, l); }
  }

  lemma NearestAttained(w: Wheel, a: nat, max: nat, low: nat, high: nat, m: int)
    requires Valid(w) && a < LEVELS * SLOTS && low <= a / SLOTS <= high && Attained(w, max, low, high, m)
    ensures |w.slots| == LEVELS * SLOTS && forall j :: 0 <= j < |w.slots[a]| ==> w.slots[a][j] in w.at
    ensures var r := Nearest(w, w.slots[a], m);
      r <= m && Attained(w, max, low, high, r) && forall e :: e in w.slot && w.slot[e] == a ==> r <= w.at[e] - w.now
  {
    SlotKnown(w, a);
    var l := w.slots[a];
    NearestIs(w, l, m);
    var r := Nearest(w, l, m);
    if r != m {
      var j :| 0 <= j < |l| && r == w.at[l[j]] - w.now;
      assert l[j] in w.slot;
    }
    forall e | e in w.slot && w.slot[e] == a ensures r <= w.at[e] - w.now { assert e in l; }
  }

  /** The answer is never less than what is right. */
  lemma {:induction false} NeverEarly(w: Wheel, max: nat, level: nat, i: nat, m: int)
    requires Valid(w) && level < LEVELS && i <= SLOTS && Attained(w, max, 0, LEVELS - 1, m)
    ensures Attained(w, max, 0, LEVELS - 1, WakeFrom(w, max, level, i, m))
    decreases LEVELS - level, SLOTS - i
  {
    hide Valid, Attained;
    if i == SLOTS {
      MaxAttained(w, max);
      if level < LEVELS - 1 && Shift(max, level) / 2 > 0 { NeverEarly(w, max, level + 1, 0, max); }
    } else {
      var up := m;
      if LooksUp(w, level, i) {
        NearestAttained(w, UpSlot(w, level), max, 0, LEVELS - 1, m);
        up := Nearest(w, w.slots[UpSlot(w, level)], m);
      }
      NearestAttained(w, After(w, level, i), max, 0, LEVELS - 1, up);
      var l := w.slots[After(w, level, i)];
      if l == [] { NeverEarly(w, max, level, i + 1, up); }
      else if level == 0 { HeadAttained(w, After(w, level, i), max, 0, LEVELS - 1, up); }
    }
  }

  lemma MaxAttained(w: Wheel, max: nat)
    requires Valid(w)
    ensures Attained(w, max, 0, LEVELS - 1, max)
  {
  }

  lemma HeadAttained(w: Wheel, a: nat, max: nat, low: nat, high: nat, m: int)
    requires Valid(w) && a < LEVELS * SLOTS && w.slots[a] != [] && low <= a / SLOTS <= high && Attained(w, max, low, high, m)
    ensures w.slots[a][0] in w.at && Attained(w, max, low, high, Min(m, w.at[w.slots[a][0]] - w.now))
  {
    assert w.slots[a][0] in w.slot;
  }

  // ---------------------------------------------------------------------------------------
  // Right on the lowest level in use and the next
  // ---------------------------------------------------------------------------------------

  /** What is known when the search of a level has come to slot `i`. */
  ghost predicate Searched(w: Wheel, max: nat, level: nat, i: nat, m: int)
    requires Valid(w)
  {
    && Attained(w, max, level, level + 1, m)
    && (forall e :: e in w.slot && w.slot[e] / SLOTS == level ==> Ahead(w, e) > i)
    && (i > SLOTS - 1 - Digit(w.now, level) && level < LEVELS - 1 ==> Bounded(w, UpSlot(w, level), m))
  }

  /** No event of the slot is nearer than `m`. */
  ghost predicate Bounded(w: Wheel, a: nat, m: int)
    requires Valid(w)
  {
    forall e :: e in w.slot && w.slot[e] == a ==> m <= w.at[e] - w.now
  }

  /** What `m` becomes after the look at the level above. */
  ghost predicate LookedUp(w: Wheel, max: nat, level: nat, i: nat, m: int, up: int)
    requires Valid(w) && level < LEVELS
  {
    && up <= m && Attained(w, max, level, level + 1, up)
    && (LooksUp(w, level, i) ==> Bounded(w, UpSlot(w, level), up))
  }

  lemma LookUp(w: Wheel, max: nat, level: nat, i: nat, m: int) returns (up: int)
    requires Valid(w) && level < LEVELS && i < SLOTS && Attained(w, max, level, level + 1, m)
    ensures |w.slots| == LEVELS * SLOTS && After(w, level, i) < LEVELS * SLOTS
    ensures up == if LooksUp(w, level, i) then (SlotKnown(w, UpSlot(w, level)); Nearest(w, w.slots[UpSlot(w, level)], m)) else m
    ensures LookedUp(w, max, level, i, m, up)
  {
    up := m;
    if LooksUp(w, level, i) {
      NearestAttained(w, UpSlot(w, level), max, level, level + 1, m);
      up := Nearest(w, w.slots[UpSlot(w, level)], m);
    }
  }

  /** Past a slot without an event, the events of the level are further ahead. */
  lemma PassedAhead(w: Wheel, level: nat, i: nat)
    requires Sound(w) && level < LEVELS && i < SLOTS && w.slots[After(w, level, i)] == []
    requires forall e :: e in w.slot && w.slot[e] / SLOTS == level ==> e in w.at && Ahead(w, e) > i
    ensures forall e :: e in w.slot && w.slot[e] / SLOTS == level ==> Ahead(w, e) > i + 1
  {
    forall e | e in w.slot && w.slot[e] / SLOTS == level ensures Ahead(w, e) > i + 1 { EventAhead(w, e); }
  }

  /** The carry is at slot 0 of the level. */
  lemma CarrySlot(w: Wheel, level: nat, i: nat)
    requires i < SLOTS
    ensures i == SLOTS - 1 - Digit(w.now, level) <==> After(w, level, i) == level * SLOTS
    ensures After(w, level, i) == level * SLOTS <==> After(w, level, i) % SLOTS == 0
  {
  }

  lemma PassLevel(w: Wheel, max: nat, level: nat, i: nat, m: int, up: int)
    requires Sound(w) && level < LEVELS && i < SLOTS
    requires Searched(w, max, level, i, m) && LookedUp(w, max, level, i, m, up)
    requires w.slots[After(w, level, i)] == []
    ensures Searched(w, max, level, i + 1, up)
  {
    hide Attained, Clear, Located, Recorded, Past, InPlace, UpSlot, After;
    PassedAhead(w, level, i);
    CarrySlot(w, level, i);
  }

  /** An event in the first slot in use on a level is before those in other slots of the level. */
  lemma FirstInUse(w: Wheel, level: nat, i: nat, x: Event, e: Event)
    requires Sound(w) && i < SLOTS && x in w.slot && e in w.slot && w.slot[x] == After(w, level, i)
    requires w.slot[e] / SLOTS == level && e in w.at && Ahead(w, e) > i && w.slot[e] != w.slot[x]
    ensures x in w.at && w.at[x] < w.at[e]
  {
    ReachedAt(w, x, level, i);
    EventAhead(w, e);
    Later(w.at[x], w.at[e], level);
  }

  /** It is before those of the next level, but for a slot of that level to which the search has looked up. */
  lemma BeforeNext(w: Wheel, level: nat, i: nat, x: Event, e: Event)
    requires Sound(w) && i < SLOTS && x in w.slot && e in w.slot && w.slot[x] == After(w, level, i)
    requires w.slot[e] / SLOTS == level + 1
    requires w.slot[e] != UpSlot(w, level) || i < SLOTS - 1 - Digit(w.now, level) || (level == 0 && i == SLOTS - 1 - Digit(w.now, 0))
    ensures x in w.at && e in w.at && w.at[x] <= w.at[e]
  {
    ReachedAt(w, x, level, i);
    EventAhead(w, e);
    ShiftNext(w.at[x], level);
    ShiftNext(w.now, level);
    if Shift(w.at[x], level + 1) < Shift(w.at[e], level + 1) {
      Later(w.at[x], w.at[e], level + 1);
    } else {
      assert Shift(w.at[e], 1) == w.at[e] / SLOTS;
    }
  }

  /** The events of a slot of level 0 have one tick. */
  lemma SameTick(w: Wheel, x: Event, e: Event)
    requires Sound(w) && x in w.slot && e in w.slot && w.slot[x] == w.slot[e] && w.slot[x] / SLOTS == 0
    ensures x in w.at && e in w.at && w.at[x] == w.at[e]
  {
    EventAhead(w, x);
    EventAhead(w, e);
    SameDigit(w.now, Ahead(w, x) - 1, Ahead(w, e) - 1);
  }

  /** What the search of a level returns when it finds a slot in use. */
  ghost function Stopped(w: Wheel, level: nat, i: nat, up: int): int
    requires Valid(w) && level < LEVELS && i < SLOTS
    requires After(w, level, i) < |w.slots| && w.slots[After(w, level, i)] != []
  {
    SlotKnown(w, After(w, level, i));
    var l := w.slots[After(w, level, i)];
    if level == 0 then Min(up, w.at[l[0]] - w.now) else Nearest(w, l, up)
  }

  lemma StoppedIs(w: Wheel, max: nat, level: nat, i: nat, up: int)
    requires Sound(w) && level < LEVELS && i < SLOTS && Attained(w, max, level, level + 1, up)
    requires After(w, level, i) < |w.slots| && w.slots[After(w, level, i)] != []
    ensures var r := Stopped(w, level, i, up);
      r <= up && Attained(w, max, level, level + 1, r) && Bounded(w, After(w, level, i), r)
  {
    var a := After(w, level, i);
    NearestAttained(w, a, max, level, level + 1, up);
    if level == 0 {
      HeadAttained(w, a, max, level, level + 1, up);
      var x := w.slots[a][0];
      assert x in w.slot && w.slot[x] == a;
      forall e | e in w.slot && w.slot[e] == a ensures w.at[x] == w.at[e] { SameTick(w, x, e); }
    }
  }

  /** The nearest event of the first slot in use, or a nearer one seen on the next level, is the earliest of the two levels. */
  lemma StopLevel(w: Wheel, max: nat, level: nat, i: nat, m: int, up: int)
    requires Sound(w) && level < LEVELS && i < SLOTS
    requires Searched(w, max, level, i, m) && LookedUp(w, max, level, i, m, up)
    requires After(w, level, i) < |w.slots| && w.slots[After(w, level, i)] != []
    ensures EarliestOn(w, max, level, Stopped(w, level, i, up))
  {
    hide Stopped, Attained, Ahead, UpSlot, After, Digit;
    StoppedIs(w, max, level, i, up);
    CarrySlot(w, level, i);
    var a := After(w, level, i);
    var r, x := Stopped(w, level, i, up), w.slots[a][0];
    assert x in w.slot && w.slot[x] == a;
    forall e | e in w.slot && level <= w.slot[e] / SLOTS <= level + 1 ensures r <= w.at[e] - w.now {
      EventAhead(w, e);
      if w.slot[e] != a && w.slot[e] / SLOTS == level { FirstInUse(w, level, i, x, e); }
      if w.slot[e] / SLOTS == level + 1 && !(Bounded(w, UpSlot(w, level), up) && w.slot[e] == UpSlot(w, level)) {
        BeforeNext(w, level, i, x, e);
      }
    }
  }

  ghost predicate InUse(w: Wheel, level: nat) { exists e :: e in w.slot && w.slot[e] / SLOTS == level }

  /** The search of a level in use finds the earliest event of that level and the next. */
  lemma {:induction false} SearchLevel(w: Wheel, max: nat, level: nat, i: nat, m: int)
    requires Sound(w) && level < LEVELS && i <= SLOTS && InUse(w, level) && Searched(w, max, level, i, m)
    ensures EarliestOn(w, max, level, WakeFrom(w, max, level, i, m))
    decreases SLOTS - i
  {
    hide Sound, Searched, EarliestOn, LookedUp, InUse;
    SearchedKnown(w, max, level, i, m);
    if i < SLOTS {
      var up := LookUp(w, max, level, i, m);
      if w.slots[After(w, level, i)] == [] {
        PassLevel(w, max, level, i, m, up);
        SearchLevel(w, max, level, i + 1, up);
      } else {
        StopLevel(w, max, level, i, m, up);
      }
    }
  }

  lemma SearchedKnown(w: Wheel, max: nat, level: nat, i: nat, m: int)
    requires Sound(w) && InUse(w, level) && Searched(w, max, level, i, m)
    ensures Valid(w) && |w.slots| == LEVELS * SLOTS && Attained(w, max, level, level + 1, m) && i < SLOTS
  {
    var e :| e in w.slot && w.slot[e] / SLOTS == level;
    EventAhead(w, e);
  }

  // ---------------------------------------------------------------------------------------
  // When the answer is right
  // ---------------------------------------------------------------------------------------

  /** From a level without events the search goes on to the next, or gives up; what it saw above is forgotten. */
  lemma {:induction false} EmptyLevel(w: Wheel, max: nat, level: nat, i: nat, m: int)
    requires Valid(w) && level < LEVELS && i <= SLOTS && !InUse(w, level)
    ensures WakeFrom(w, max, level, i, m) ==
      if level < LEVELS - 1 && Shift(max, level) / 2 > 0 then WakeFrom(w, max, level + 1, 0, max) else max
    decreases SLOTS - i
  {
    hide Valid, InUse;
    if i < SLOTS {
      EmptySlot(w, level, i);
      var up := if LooksUp(w, level, i) then (SlotKnown(w, UpSlot(w, level)); Nearest(w, w.slots[UpSlot(w, level)], m)) else m;
      EmptyLevel(w, max, level, i + 1, up);
    }
  }

  lemma EmptySlot(w: Wheel, level: nat, i: nat)
    requires Valid(w) && level < LEVELS && i < SLOTS
    ensures After(w, level, i) < |w.slots| == LEVELS * SLOTS && (!InUse(w, level) ==> w.slots[After(w, level, i)] == [])
  {
    var a := After(w, level, i);
    if w.slots[a] != [] { assert w.slots[a][0] in w.slot && w.slot[w.slots[a][0]] == a; }
  }

  /** `max` is large enough for the search to come to the level. */
  predicate Reached(max: nat, level: nat) { level == 0 || Shift(max, level - 1) / 2 > 0 }

  lemma ReachedBelow(max: nat, level: nat)
    requires Reached(max, level + 1)
    ensures Reached(max, level)
  {
    if level > 0 { ShiftNext(max, level - 1); }
  }

  /** With no event below the level the search comes to it, or gives up. */
  lemma {:induction false} Climbed(w: Wheel, max: nat, level: nat)
    requires Valid(w) && level < LEVELS && forall l :: 0 <= l < level ==> !InUse(w, l)
    ensures WakeFrom(w, max, 0, 0, max) == if Reached(max, level) then WakeFrom(w, max, level, 0, max) else max
  {
    hide Valid, InUse;
    if level > 0 {
      Climbed(w, max, level - 1);
      EmptyLevel(w, max, level - 1, 0, max);
      if Reached(max, level) { ReachedBelow(max, level - 1); }
    }
  }

  ghost predicate Lowest(w: Wheel, level: nat) { InUse(w, level) && forall l :: 0 <= l < level ==> !InUse(w, l) }

  /** An event of the level or the next is no further away than `e`. */
  ghost predicate Covered(w: Wheel, level: nat, e: Event)
    requires Valid(w) && e in w.slot
  {
    exists f :: f in w.slot && level <= w.slot[f] / SLOTS <= level + 1 && w.at[f] <= w.at[e]
  }

  /**
   If the search reaches the lowest level in use, every event two or more levels above it is no nearer than `max` or than
   some event of that level or the next; if it does not, every event is no nearer than `max`.
   */
  ghost predicate InTime(w: Wheel, max: nat)
    requires Valid(w)
  {
    forall level: nat :: Lowest(w, level) ==>
      if Reached(max, level) then
        forall e :: e in w.slot && w.slot[e] / SLOTS >= level + 2 ==> max <= w.at[e] - w.now || Covered(w, level, e)
      else
        forall e :: e in w.slot ==> max <= w.at[e] - w.now
  }

  lemma WakeReached(w: Wheel, max: nat, level: nat)
    requires Sound(w) && level < LEVELS && InUse(w, level)
    ensures EarliestOn(w, max, level, WakeFrom(w, max, level, 0, max))
  {
    forall e | e in w.slot && w.slot[e] / SLOTS == level ensures Ahead(w, e) > 0 { EventAhead(w, e); }
    SearchLevel(w, max, level, 0, max);
  }

  lemma {:induction false} FindLowest(w: Wheel, level: nat, e: Event) returns (low: nat)
    requires Valid(w) && e in w.slot && forall l :: 0 <= l < level ==> !InUse(w, l)
    ensures Lowest(w, low) && low < LEVELS
    decreases w.slot[e] / SLOTS - level
  {
    assert InUse(w, w.slot[e] / SLOTS);
    if InUse(w, level) { low := level; } else { low := FindLowest(w, level + 1, e); }
  }

  /** The lowest level in use is one. */
  lemma LowestUnique(w: Wheel, l: nat, m: nat)
    requires Lowest(w, l) && Lowest(w, m)
    ensures l == m
  {
  }

  /** When nothing is pending, the answer is the least of `max` and the distance to the earliest event, if and only if `InTime`. */
  lemma WakeExact(w: Wheel, max: nat)
    requires Valid(w) && Clear(w, 0)
    ensures Earliest(w, max, WakeFrom(w, max, 0, 0, max)) <==> InTime(w, max)
  {
    var r := WakeFrom(w, max, 0, 0, max);
    if e :| e in w.slot {
      var level := FindLowest(w, 0, e);
      WakeAt(w, max, level);
      forall l: nat | Lowest(w, l) ensures l == level { LowestUnique(w, l, level); }
    } else {
      WakeBlank(w, max);
    }
  }

  /** The wheel without events says that it can sleep for `max`. */
  lemma WakeBlank(w: Wheel, max: nat)
    requires Valid(w) && w.slot == map[]
    ensures WakeFrom(w, max, 0, 0, max) == max
  {
    Climbed(w, max, LEVELS - 1);
    EmptyLevel(w, max, LEVELS - 1, 0, max);
  }

  lemma WakeAt(w: Wheel, max: nat, level: nat)
    requires Sound(w) && Lowest(w, level) && level < LEVELS
    ensures Earliest(w, max, WakeFrom(w, max, 0, 0, max)) <==>
      if Reached(max, level) then
        forall e :: e in w.slot && w.slot[e] / SLOTS >= level + 2 ==> max <= w.at[e] - w.now || Covered(w, level, e)
      else
        forall e :: e in w.slot ==> max <= w.at[e] - w.now
  {
    var r := WakeFrom(w, max, 0, 0, max);
    Climbed(w, max, level);
    if Reached(max, level) {
      WakeReached(w, max, level);
      OnBoth(w, max, level, r);
    }
  }

  lemma OnBoth(w: Wheel, max: nat, level: nat, r: int)
    requires Valid(w) && Lowest(w, level) && EarliestOn(w, max, level, r)
    ensures Earliest(w, max, r) <==>
      forall e :: e in w.slot && w.slot[e] / SLOTS >= level + 2 ==> max <= w.at[e] - w.now || Covered(w, level, e)
  {
    forall e | e in w.slot ensures level <= w.slot[e] / SLOTS < LEVELS { assert InUse(w, w.slot[e] / SLOTS); }
    if Earliest(w, max, r) && r != max {
      var f :| f in w.slot && level <= w.slot[f] / SLOTS <= level + 1 && r == w.at[f] - w.now;
      forall e | e in w.slot ensures Covered(w, level, e) { assert w.at[f] <= w.at[e]; }
    }
  }

  /** With no event above level 1 the answer is right. */
  lemma LowLevelsExact(w: Wheel, max: nat)
    requires Valid(w) && Clear(w, 0) && forall e :: e in w.slot ==> w.slot[e] / SLOTS <= 1
    ensures Earliest(w, max, WakeFrom(w, max, 0, 0, max))
  {
    forall e | e in w.slot ensures w.now < w.at[e] { EventAhead(w, e); }
    forall level: nat | Lowest(w, level) ensures level == 0 || (level == 1 && (Reached(max, 1) || max <= 1)) {
      assert Shift(max, 0) == max;
    }
    WakeExact(w, max);
  }

  // ---------------------------------------------------------------------------------------
  // Wrong when two levels are carried at once, and when what was seen above is forgotten
  // ---------------------------------------------------------------------------------------

  const FAR: Event := Event(1)
  const NEAR: Event := Event(2)

  function Blank(): seq<seq<Event>> { seq(LEVELS * SLOTS, _ => []) }

  /** At tick 0, an event is scheduled for tick 65541. */
  ghost function Far(now: nat): Wheel {
    Wheel(now, Blank()[513 := [FAR]], map[FAR := 513], map[FAR := 65541], [Scheduled(FAR, 65541)])
  }

  lemma FarIsScheduled()
    ensures var w := Wheel(0, Blank(), map[], map[], []); Valid(w) && ScheduleAt(w, FAR, 65541) == Far(0)
  {
    assert LevelFrom(0, 65541) == 2 by { assert LevelFrom(0, 256) == 1; }
    assert Shift(65541, 2) == 1;
    var w := Wheel(0, Blank(), map[], map[], []);
    assert SlotFor(0, 65541) == 513;
    assert w.slots[513] == [] && [FAR] + w.slots[513] == [FAR];
    assert w.slots[513 := [FAR] + w.slots[513]] == Far(0).slots;
  }

  lemma {:induction false} FarClear(t: nat, l: nat)
    requires t < 65536 && l < LEVELS
    ensures |Far(t).slots| == LEVELS * SLOTS && Clear(Far(t), l)
    decreases LEVELS - l
  {
    if l == 2 { assert Shift(t, 2) == Shift(t / SLOTS, 1) == t / SLOTS / SLOTS; }
    if l < LEVELS - 1 { FarClear(t, l + 1); }
  }

  lemma FarTicks(t: nat)
    requires t + 1 < 65536 && Valid(Far(t))
    ensures Clear(Far(t), 0) && Ticked(Far(t)) == Far(t + 1) && Valid(Far(t + 1))
  {
    FarClear(t, 0);
  }

  /** Nothing happens before tick 65536. */
  lemma {:induction false} FarQuiet(t: nat, n: nat, script: Script)
    requires Polite(script) && t + n < 65536 && Valid(Far(t))
    ensures Valid(Far(t + n)) && Complete(Far(t), n, script) == Far(t + n)
    decreases n
  {
    hide Valid, Complete, Clear, Ticked, Polite, Blank;
    if n == 0 {
      FarClear(t, 0);
      CompleteNone(Far(t), script);
    } else {
      FarTicks(t);
      CompleteTick(Far(t), n - 1, script);
      FarQuiet(t + 1, n - 1, script);
    }
  }

  /** At tick 65535 a second event is scheduled, 100 ticks ahead. */
  ghost function Both(): Wheel {
    Wheel(65535, Blank()[513 := [FAR]][99 := [NEAR]], map[FAR := 513, NEAR := 99], map[FAR := 65541, NEAR := 65635],
          [Scheduled(FAR, 65541), Scheduled(NEAR, 65635)])
  }

  lemma NearIsScheduled()
    requires Valid(Far(65535))
    ensures Valid(Both()) && ScheduleAt(Far(65535), NEAR, 65635) == Both()
  {
    ScheduleKeeps(Far(65535), NEAR, 65635);
    hide Valid;
    NearIsBoth();
  }

  lemma NearIsBoth()
    requires Located(Far(65535).slots, Far(65535).slot)
    ensures ScheduleAt(Far(65535), NEAR, 65635) == Both()
  {
    hide Located;
    var w := Far(65535);
    assert SlotFor(65535, 65635) == 99;
    assert w.slots[99] == [] && [NEAR] + w.slots[99] == [NEAR];
    assert w.slots[99 := [NEAR] + w.slots[99]] == Both().slots;
  }

  lemma {:induction false} BothSearch(i: nat)
    requires i <= 99 && Valid(Both())
    ensures WakeFrom(Both(), 1000, 0, i, 1000) == 100
    decreases 99 - i
  {
    var w := Both();
    assert After(w, 0, i) == i && UpSlot(w, 0) == SLOTS;
    if i < 99 { BothSearch(i + 1); }
  }

  /**
   A wheel started at tick 0, with one event scheduled for tick 65541 then and one for tick 65635 at tick 65535, says
   that it can sleep 100 ticks; the first event is due in 6.
   */
  lemma DoubleCarryMissed(script: Script)
    requires Polite(script)
    ensures var w0 := Wheel(0, Blank(), map[], map[], []);
      (Valid(w0) && Valid(ScheduleAt(w0, FAR, 65541)) && Valid(Complete(ScheduleAt(w0, FAR, 65541), 65535, script)))
    ensures var w := ScheduleAt(Complete(ScheduleAt(Wheel(0, Blank(), map[], map[], []), FAR, 65541), 65535, script), NEAR, 65635);
      (Valid(w) && WakeFrom(w, 1000, 0, 0, 1000) == 100 && FAR in w.slot && w.at[FAR] - w.now == 6)
  {
    FarIsScheduled();
    ScheduleKeeps(Wheel(0, Blank(), map[], map[], []), FAR, 65541);
    FarQuiet(0, 65535, script);
    NearIsScheduled();
    BothSearch(0);
  }

  /**
   A wheel started at tick 0, with one event scheduled for tick 65541 then, says at tick 65236 that it can sleep for the
   500 ticks asked for; the event is due in 305. The search of level 1 has seen the event on level 2, but 500 does not
   reach that level, and 500 is returned.
   */
  lemma SeenButForgotten(script: Script)
    requires Polite(script)
    ensures var w0 := Wheel(0, Blank(), map[], map[], []);
      (Valid(w0) && Valid(ScheduleAt(w0, FAR, 65541)) && Valid(Complete(ScheduleAt(w0, FAR, 65541), 65236, script)))
    ensures var w := Complete(ScheduleAt(Wheel(0, Blank(), map[], map[], []), FAR, 65541), 65236, script);
      && Valid(w) && WakeFrom(w, 500, 0, 0, 500) == 500 && FAR in w.slot && w.at[FAR] - w.now == 305
      && LooksUp(w, 1, 1) && w.slots[UpSlot(w, 1)] == [FAR]
  {
    hide Valid, Clear, WakeFrom, LooksUp, UpSlot;
    FarIsScheduled();
    ScheduleKeeps(Wheel(0, Blank(), map[], map[], []), FAR, 65541);
    FarQuiet(0, 65236, script);
    FarForgotten();
  }

  lemma FarForgotten()
    requires Valid(Far(65236))
    ensures var w := Far(65236); WakeFrom(w, 500, 0, 0, 500) == 500 && LooksUp(w, 1, 1) && w.slots[UpSlot(w, 1)] == [FAR]
  {
    hide WakeFrom, Valid;
    var w := Far(65236);
    FarUses(w.now);
    Climbed(w, 500, 2);
    FarDigits();
  }

  lemma FarUses(t: nat)
    ensures !InUse(Far(t), 0) && !InUse(Far(t), 1)
  {
  }

  lemma FarDigits()
    ensures !Reached(500, 2) && After(Far(65236), 1, 1) == SLOTS && UpSlot(Far(65236), 1) == 513
  {
    assert Shift(500, 1) == 1 && Shift(65236, 1) == 254 && Shift(65236, 2) == 0;
  }
}
