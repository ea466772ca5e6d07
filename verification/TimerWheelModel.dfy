/**
 The hierarchical timing wheel as a value: eight levels of 256 slots, cascading, and callbacks that schedule and
 cancel. What it computes is compared with a flat timer that knows one tick per event.
 */
module TimerWheelModel {

  const SLOTS: nat := 256
  const LEVELS: nat := 8
  const MAX_TICK: nat := 0x1_0000_0000_0000_0000

  datatype Event = Event(address: nat)

  /** What has happened, oldest first. */
  datatype Entry = Scheduled(event: Event, tick: nat) | Cancelled(event: Event) | Fired(event: Event, tick: nat)

  datatype Action = Schedule(event: Event, delta: nat) | Cancel(event: Event)

  /** What the callback of the last entry, a firing, does. It may depend on everything that happened before. */
  type Script = seq<Entry> -> seq<Action>

  ghost predicate Allowed(acts: seq<Action>, now: nat) {
    forall i :: 0 <= i < |acts| && acts[i].Schedule? ==> 0 < acts[i].delta && now + acts[i].delta < MAX_TICK
  }

  /** Callbacks schedule with positive deltas that fit the clock. */
  ghost predicate Polite(script: Script) {
    forall log: seq<Entry> :: log != [] && log[|log| - 1].Fired? ==> Allowed(script(log), log[|log| - 1].tick)
  }

  // ---------------------------------------------------------------------------------------
  // Ticks and levels
  // ---------------------------------------------------------------------------------------

  /** `t >> (8 * l)`. */
  function Shift(t: nat, l: nat): nat {
    if l == 0 then t else Shift(t / SLOTS, l - 1)
  }

  function Digit(t: nat, l: nat): nat { Shift(t, l) % SLOTS }

  lemma {:induction false} ShiftNext(t: nat, l: nat)
    ensures Shift(t, l + 1) == Shift(t, l) / SLOTS
  {
    if l > 0 { ShiftNext(t / SLOTS, l - 1); }
  }

  lemma {:induction false} ShiftMono(a: nat, b: nat, l: nat)
    requires a <= b
    ensures Shift(a, l) <= Shift(b, l)
  {
    if l > 0 { ShiftMono(a / SLOTS, b / SLOTS, l - 1); }
  }

  function Reach(l: nat): nat { if l == 0 then SLOTS else SLOTS * Reach(l - 1) }

  lemma {:induction false} ShiftSmall(t: nat, l: nat)
    requires t < Reach(l)
    ensures Shift(t, l) < SLOTS
  {
    if l > 0 { ShiftSmall(t / SLOTS, l - 1); }
  }

  lemma ReachAll()
    ensures Reach(LEVELS - 1) == MAX_TICK
  {
    assert Reach(3) == 0x1_0000_0000;
    assert Reach(5) == 0x1_0000_0000_0000;
  }

  /** All digits below level `l` are zero: level `l` moves on, or moved on, at tick `t`. */
  predicate Due(t: nat, l: nat) {
    if l == 0 then true else Due(t, l - 1) && Digit(t, l - 1) == 0
  }

  /** One tick on, a level moves by one if it is due, and not otherwise. */
  lemma {:induction false} ShiftTick(t: nat, l: nat)
    ensures Shift(t + 1, l) == Shift(t, l) + if Due(t + 1, l) then 1 else 0
  {
    if l > 0 {
      ShiftTick(t, l - 1);
      ShiftNext(t, l - 1);
      ShiftNext(t + 1, l - 1);
    }
  }

  lemma {:induction false} DueBelow(t: nat, m: nat, l: nat)
    requires m <= l && Due(t, l)
    ensures Due(t, m)
  {
    if m < l { DueBelow(t, m, l - 1); }
  }

  /** At a due level, a tick in the current slot is the present or later. */
  lemma {:induction false} DueLeast(now: nat, s: nat, l: nat)
    requires Due(now, l) && Shift(now, l) <= Shift(s, l)
    ensures now <= s
  {
    if l > 0 {
      ShiftNext(now, l - 1);
      ShiftNext(s, l - 1);
      DueLeast(now, s, l - 1);
    }
  }

  /** The level at which `schedule` stops, from the clock and the tick of level `l`. */
  function LevelFrom(now: nat, s: nat): nat
    requires now <= s
    decreases s
  {
    if s - now < SLOTS then 0 else 1 + LevelFrom(now / SLOTS, s / SLOTS)
  }

  function SlotFor(now: nat, s: nat): nat
    requires now <= s
  {
    var l := LevelFrom(now, s);
    l * SLOTS + Digit(s, l)
  }

  /** The chosen level is the first where the distance fits, and the distance there is not zero. */
  lemma {:induction false} LevelFits(now: nat, s: nat)
    requires now < s
    ensures var l := LevelFrom(now, s); 0 < Shift(s, l) - Shift(now, l) < SLOTS
    ensures forall m :: 0 <= m < LevelFrom(now, s) ==> Shift(s, m) - Shift(now, m) >= SLOTS
    decreases s
  {
    if s - now >= SLOTS {
      LevelFits(now / SLOTS, s / SLOTS);
      var l := LevelFrom(now, s);
      forall m | 0 <= m < l ensures Shift(s, m) - Shift(now, m) >= SLOTS {
        if m > 0 {
          assert Shift(s, m) == Shift(s / SLOTS, m - 1) && Shift(now, m) == Shift(now / SLOTS, m - 1);
        }
      }
    }
  }

  lemma {:induction false} LevelBound(now: nat, s: nat)
    requires now < s < MAX_TICK
    ensures LevelFrom(now, s) < LEVELS
  {
    LevelFits(now, s);
    ReachAll();
    ShiftSmall(s, 7);
  }

  lemma SlotForIs(now: nat, s: nat)
    requires now < s < MAX_TICK
    ensures SlotFor(now, s) < LEVELS * SLOTS
    ensures SlotFor(now, s) / SLOTS == LevelFrom(now, s) && SlotFor(now, s) % SLOTS == Digit(s, LevelFrom(now, s))
  {
    LevelBound(now, s);
  }

  /** The loop of `schedule` has come to `level` with distance `d`. */
  ghost predicate Climbing(now: nat, s: nat, level: nat, d: nat) {
    && now < s < MAX_TICK && level < LEVELS && d == Shift(s, level) - Shift(now, level)
    && LevelFrom(now, s) == level + LevelFrom(Shift(now, level), Shift(s, level))
  }

  lemma ClimbBegins(now: nat, s: nat)
    requires now < s < MAX_TICK
    ensures Climbing(now, s, 0, s - now) && SlotFor(now, s) < LEVELS * SLOTS
  {
    NeverCurrent(now, s, 0);
  }

  lemma ClimbOn(now: nat, s: nat, level: nat, d: nat)
    requires Climbing(now, s, level, d) && d >= SLOTS
    ensures var d' := (d + Shift(now, level) % SLOTS) / SLOTS; d' < d && Climbing(now, s, level + 1, d')
    ensures level + 1 < LEVELS && d + Shift(now, level) % SLOTS < MAX_TICK
  {
    ShiftNext(now, level);
    ShiftNext(s, level);
    LevelBound(now, s);
    ShiftBelow(s, level);
  }

  lemma {:induction false} ShiftBelow(t: nat, l: nat)
    ensures Shift(t, l) <= t
  {
    if l > 0 { ShiftBelow(t / SLOTS, l - 1); }
  }

  /** Level and distance name the slot. */
  lemma ClimbDone(now: nat, s: nat, level: nat, d: nat)
    requires Climbing(now, s, level, d) && d < SLOTS
    ensures level < LEVELS && level * SLOTS + (Shift(now, level) + d) % SLOTS == SlotFor(now, s)
  {
  }

  /** Slot `a` may hold an event of tick `s` at clock `now`: ahead on its level, or current on a level that is due. */
  predicate InPlace(now: nat, s: nat, a: nat) {
    var l := a / SLOTS;
    && now <= s < MAX_TICK && a % SLOTS == Digit(s, l)
    && (0 < Shift(s, l) - Shift(now, l) < SLOTS || (Shift(s, l) == Shift(now, l) && Due(now, l)))
  }

  function CurSlot(now: nat, l: nat): nat { l * SLOTS + Digit(now, l) }

  /** Scheduling never chooses a slot that is current at any level. */
  lemma NeverCurrent(now: nat, s: nat, l: nat)
    requires now < s < MAX_TICK
    ensures SlotFor(now, s) < LEVELS * SLOTS && SlotFor(now, s) != CurSlot(now, l)
    ensures InPlace(now, s, SlotFor(now, s))
  {
    SlotForIs(now, s);
    LevelFits(now, s);
    var m := LevelFrom(now, s);
    DigitDiffers(Shift(now, m), Shift(s, m));
    if l < m { assert CurSlot(now, l) < m * SLOTS; }
    else if l > m { assert SlotFor(now, s) < l * SLOTS; }
  }

  lemma DigitDiffers(x: nat, y: nat)
    requires 0 < y - x < SLOTS
    ensures x % SLOTS != y % SLOTS
  {
  }

  /** An event in the current slot of a level is current there, and the level is due. */
  lemma CurrentIsDue(now: nat, s: nat, l: nat)
    requires InPlace(now, s, CurSlot(now, l))
    ensures Shift(s, l) == Shift(now, l) && Due(now, l)
  {
    assert CurSlot(now, l) / SLOTS == l && CurSlot(now, l) % SLOTS == Digit(now, l);
    if Shift(s, l) != Shift(now, l) { DigitDiffers(Shift(now, l), Shift(s, l)); }
  }

  // ---------------------------------------------------------------------------------------
  // The wheel
  // ---------------------------------------------------------------------------------------

  /**
   `slots[l * 256 + i]` is slot `i` of level `l`, first event first; `slot` is where each scheduled event is;
   `at` is the tick an event was last scheduled for.
   */
  datatype Wheel = Wheel(now: nat, slots: seq<seq<Event>>, slot: map<Event, nat>, at: map<Event, nat>, log: seq<Entry>)

  /** The events a history leaves scheduled, with their ticks. */
  function Pending(log: seq<Entry>): map<Event, nat> {
    if log == [] then map[] else
      var before := Pending(log[..|log| - 1]);
      match log[|log| - 1] {
        case Scheduled(e, t) => before[e := t]
        case Cancelled(e) => before - {e}
        case Fired(e, t) => before - {e}
      }
  }

  /** Every firing was of a scheduled event, at its tick, while no other event was left behind. */
  ghost predicate OnTime(log: seq<Entry>) {
    log != [] ==>
      var before, last := log[..|log| - 1], log[|log| - 1];
      && OnTime(before)
      && (last.Fired? ==>
           (last.event in Pending(before) && Pending(before)[last.event] == last.tick
            && forall x :: x in Pending(before) ==> last.tick <= Pending(before)[x]))
  }

  ghost predicate Distinct(l: seq<Event>) {
    forall i, j :: 0 <= i < j < |l| ==> l[i] != l[j]
  }

  /** Every scheduled event is in its slot, once, and nothing else is in a slot. */
  ghost predicate Located(slots: seq<seq<Event>>, slot: map<Event, nat>) {
    && |slots| == LEVELS * SLOTS
    && (forall e :: e in slot ==> slot[e] < |slots| && e in slots[slot[e]])
    && (forall a :: 0 <= a < |slots| ==> Distinct(slots[a]))
    && (forall a, i :: 0 <= a < |slots| && 0 <= i < |slots[a]| ==> slots[a][i] in slot && slot[slots[a][i]] == a)
  }

  ghost predicate Timed(now: nat, slot: map<Event, nat>, at: map<Event, nat>) {
    && now < MAX_TICK
    && forall e :: e in slot ==> e in at && InPlace(now, at[e], slot[e])
  }

  ghost predicate Recorded(slot: map<Event, nat>, at: map<Event, nat>, log: seq<Entry>) {
    && OnTime(log) && Pending(log).Keys == slot.Keys
    && forall e :: e in slot ==> e in at && Pending(log)[e] == at[e]
  }

  /** Nothing fires ahead of the clock. */
  ghost predicate Past(log: seq<Entry>, now: nat) {
    forall i :: 0 <= i < |log| && log[i].Fired? ==> log[i].tick <= now
  }

  ghost predicate Valid(w: Wheel) {
    && Located(w.slots, w.slot) && Timed(w.now, w.slot, w.at) && Recorded(w.slot, w.at, w.log)
    && Past(w.log, w.now)
  }

  ghost function Cur(w: Wheel, l: nat): seq<Event>
    requires |w.slots| == LEVELS * SLOTS && l < LEVELS
  {
    w.slots[CurSlot(w.now, l)]
  }

  /** `w'` is at the same tick as `w`, and no current slot has gained an event. */
  ghost predicate Shrunk(w: Wheel, w': Wheel) {
    && |w.slots| == |w'.slots| == LEVELS * SLOTS && w'.now == w.now
    && forall l :: 0 <= l < LEVELS ==> |Cur(w', l)| <= |Cur(w, l)|
  }

  // ---------------------------------------------------------------------------------------
  // Linking and unlinking
  // ---------------------------------------------------------------------------------------

  ghost function Without(l: seq<Event>, e: Event): (r: seq<Event>)
    requires Distinct(l)
    ensures Distinct(r) && |r| <= |l| && (e in l ==> |r| < |l|)
    ensures forall x :: x in r <==> x in l && x != e
  {
    if l == [] then [] else if l[0] == e then l[1..] else
      var r := Without(l[1..], e);
      assert forall i :: 0 <= i < |r| ==> r[i] in l[1..];
      [l[0]] + r
  }

  ghost function Unlink(w: Wheel, e: Event): Wheel
    requires Located(w.slots, w.slot)
  {
    if e in w.slot then
      w.(slots := w.slots[w.slot[e] := Without(w.slots[w.slot[e]], e)], slot := w.slot - {e})
    else w
  }

  /** `relink`: nothing happens to an event that is in the slot already. */
  ghost function Relink(w: Wheel, e: Event, a: nat): Wheel
    requires Located(w.slots, w.slot) && a < LEVELS * SLOTS
  {
    if e in w.slot && w.slot[e] == a then w else
      var u := Unlink(w, e);
      u.(slots := u.slots[a := [e] + u.slots[a]], slot := u.slot[e := a])
  }

  lemma UnlinkLocated(w: Wheel, e: Event)
    requires Located(w.slots, w.slot)
    ensures var u := Unlink(w, e); Located(u.slots, u.slot) && u.slot == w.slot - {e}
    ensures Shrunk(w, Unlink(w, e))
    ensures forall a :: 0 <= a < |w.slots| ==> e !in Unlink(w, e).slots[a]
  {
    var u := Unlink(w, e);
    forall x | x in u.slot ensures u.slot[x] < |u.slots| && x in u.slots[u.slot[x]] {
      assert x in w.slots[w.slot[x]];
    }
    forall a, i | 0 <= a < |u.slots| && 0 <= i < |u.slots[a]|
      ensures u.slots[a][i] in u.slot && u.slot[u.slots[a][i]] == a
    {
      assert u.slots[a][i] in w.slots[a];
    }
  }

  lemma PushLocated(slots: seq<seq<Event>>, slot: map<Event, nat>, e: Event, a: nat)
    requires Located(slots, slot) && a < |slots| && e !in slot
    ensures Located(slots[a := [e] + slots[a]], slot[e := a])
  {
    var slots', slot' := slots[a := [e] + slots[a]], slot[e := a];
    forall b, i | 0 <= b < |slots'| && 0 <= i < |slots'[b]|
      ensures slots'[b][i] in slot' && slot'[slots'[b][i]] == b
    {
      if b == a && i > 0 { assert slots'[b][i] == slots[b][i - 1]; }
    }
    forall x | x in slot' ensures slot'[x] < |slots'| && x in slots'[slot'[x]] {
      if x == e { assert slots'[a][0] == e; }
      else if slot[x] == a {
        var i :| 0 <= i < |slots[a]| && slots[a][i] == x;
        assert slots'[a][i + 1] == x;
      }
    }
  }

  lemma RelinkLocated(w: Wheel, e: Event, a: nat)
    requires Located(w.slots, w.slot) && a < LEVELS * SLOTS
    ensures var u := Relink(w, e, a); Located(u.slots, u.slot) && u.slot == w.slot[e := a]
    ensures (forall l :: 0 <= l < LEVELS ==> a != CurSlot(w.now, l)) ==> Shrunk(w, Relink(w, e, a))
  {
    if !(e in w.slot && w.slot[e] == a) {
      var u := Unlink(w, e);
      UnlinkLocated(w, e);
      hide Located, Unlink;
      PushLocated(u.slots, u.slot, e, a);
    }
  }

  // ---------------------------------------------------------------------------------------
  // Scheduling and cancelling
  // ---------------------------------------------------------------------------------------

  /** `schedule`, for a tick ahead of the clock. */
  ghost function Place(w: Wheel, e: Event, s: nat): (w': Wheel)
    requires Located(w.slots, w.slot) && w.now < s < MAX_TICK
  {
    NeverCurrent(w.now, s, 0);
    Relink(w.(at := w.at[e := s]), e, SlotFor(w.now, s))
  }

  ghost function ScheduleAt(w: Wheel, e: Event, s: nat): Wheel
    requires Located(w.slots, w.slot) && w.now < s < MAX_TICK
  {
    Place(w, e, s).(log := w.log + [Scheduled(e, s)])
  }

  ghost function CancelIt(w: Wheel, e: Event): Wheel
    requires Located(w.slots, w.slot)
  {
    Unlink(w, e).(log := w.log + [Cancelled(e)])
  }

  lemma PlaceShrinks(w: Wheel, e: Event, s: nat)
    requires Located(w.slots, w.slot) && w.now < s < MAX_TICK
    ensures Shrunk(w, Place(w, e, s))
  {
    forall l | 0 <= l < LEVELS ensures SlotFor(w.now, s) != CurSlot(w.now, l) { NeverCurrent(w.now, s, l); }
    NeverCurrent(w.now, s, 0);
    RelinkLocated(w.(at := w.at[e := s]), e, SlotFor(w.now, s));
  }

  lemma PlaceTimed(w: Wheel, e: Event, s: nat)
    requires Located(w.slots, w.slot) && Timed(w.now, w.slot, w.at) && w.now < s < MAX_TICK
    ensures var w' := Place(w, e, s);
            Located(w'.slots, w'.slot) && Timed(w'.now, w'.slot, w'.at) && w'.slot.Keys == w.slot.Keys + {e}
            && w'.at == w.at[e := s] && w'.log == w.log
  {
    NeverCurrent(w.now, s, 0);
    RelinkLocated(w.(at := w.at[e := s]), e, SlotFor(w.now, s));
  }

  lemma ScheduleKeeps(w: Wheel, e: Event, s: nat)
    requires Valid(w) && w.now < s < MAX_TICK
    ensures Valid(ScheduleAt(w, e, s)) && Shrunk(w, ScheduleAt(w, e, s)) && ScheduleAt(w, e, s).now == w.now
  {
    PlaceTimed(w, e, s);
    PlaceShrinks(w, e, s);
    var w' := ScheduleAt(w, e, s);
    assert w'.log[..|w'.log| - 1] == w.log;
  }

  lemma CancelKeeps(w: Wheel, e: Event)
    requires Valid(w)
    ensures Valid(CancelIt(w, e)) && Shrunk(w, CancelIt(w, e))
  {
    UnlinkLocated(w, e);
    var w' := CancelIt(w, e);
    assert w'.log[..|w'.log| - 1] == w.log;
  }

  // ---------------------------------------------------------------------------------------
  // Executing events
  // ---------------------------------------------------------------------------------------

  ghost function Act(w: Wheel, a: Action): (w': Wheel)
    requires Valid(w) && Allowed([a], w.now)
    ensures Valid(w') && Shrunk(w, w')
  {
    assert [a][0] == a;
    match a {
      case Schedule(e, d) => ScheduleKeeps(w, e, w.now + d); ScheduleAt(w, e, w.now + d)
      case Cancel(e) => CancelKeeps(w, e); CancelIt(w, e)
    }
  }

  /** What a callback does, action by action. */
  ghost function ActAll(w: Wheel, acts: seq<Action>): (w': Wheel)
    requires Valid(w) && Allowed(acts, w.now)
    ensures Valid(w') && Shrunk(w, w')
    decreases |acts|
  {
    if acts == [] then w else
      var rest := acts[1..];
      assert forall i :: 0 <= i < |rest| ==> rest[i] == acts[i + 1];
      ActAll(Act(w, acts[0]), rest)
  }

  /** Event `e` leaves its slot, to be executed. */
  ghost function Popped(w: Wheel, e: Event): Wheel
    requires Located(w.slots, w.slot)
  {
    Unlink(w, e).(log := w.log + [Fired(e, w.now)])
  }

  lemma PoppedKeeps(w: Wheel, e: Event)
    requires Valid(w) && e in w.slot && w.at[e] == w.now
    ensures Valid(Popped(w, e)) && Shrunk(w, Popped(w, e))
  {
    UnlinkLocated(w, e);
    var w' := Popped(w, e);
    assert w'.log[..|w'.log| - 1] == w.log;
  }

  ghost function Execute(w: Wheel, e: Event, script: Script): (w': Wheel)
    requires Valid(w) && e in w.slot && w.at[e] == w.now && Polite(script)
    ensures Valid(w') && Shrunk(w, w') && Shrunk(Unlink(w, e), w')
  {
    PoppedKeeps(w, e);
    ActAll(Popped(w, e), script(Popped(w, e).log))
  }

  /** One turn of the loop of `process_current_slot` at level `l`. */
  ghost function Turn(w: Wheel, l: nat, script: Script): (w': Wheel)
    requires Valid(w) && l < LEVELS && Cur(w, l) != [] && Polite(script)
    ensures Valid(w') && Shrunk(w, w') && |Cur(w', l)| < |Cur(w, l)|
  {
    var e := Cur(w, l)[0];
    HeadOfCurrent(w, l);
    if l == 0 || w.now >= w.at[e] then
      Execute(w, e, script)
    else
      CascadeKeeps(w, e);
      Place(Unlink(w, e), e, w.at[e])
  }

  lemma HeadOfCurrent(w: Wheel, l: nat)
    requires Valid(w) && l < LEVELS && Cur(w, l) != []
    ensures var e := Cur(w, l)[0];
      (e in w.slot && w.slot[e] == CurSlot(w.now, l) && e in w.at && e in Cur(w, l)
       && w.now <= w.at[e] < MAX_TICK && Due(w.now, l) && (l == 0 ==> w.at[e] == w.now)
       && |Cur(Unlink(w, e), l)| < |Cur(w, l)|)
  {
    var e := Cur(w, l)[0];
    assert w.slots[CurSlot(w.now, l)][0] == e;
    CurrentIsDue(w.now, w.at[e], l);
  }

  lemma CascadeKeeps(w: Wheel, e: Event)
    requires Valid(w) && e in w.slot && w.now < w.at[e]
    ensures Located(Unlink(w, e).slots, Unlink(w, e).slot)
    ensures var w' := Place(Unlink(w, e), e, w.at[e]);
      Valid(w') && Shrunk(Unlink(w, e), w') && Shrunk(w, w') && w'.now == w.now && w'.log == w.log
  {
    UnlinkLocated(w, e);
    PlaceTimed(Unlink(w, e), e, w.at[e]);
    PlaceShrinks(Unlink(w, e), e, w.at[e]);
  }

  // ---------------------------------------------------------------------------------------
  // A tick, and many
  // ---------------------------------------------------------------------------------------

  /** The loop of `process_current_slot`. */
  ghost function Drain(w: Wheel, l: nat, script: Script): (w': Wheel)
    requires Valid(w) && l < LEVELS && Polite(script)
    ensures Valid(w') && Shrunk(w, w') && Cur(w', l) == []
    decreases |Cur(w, l)|
  {
    if Cur(w, l) == [] then w else Drain(Turn(w, l, script), l, script)
  }

  /** The levels from `l` up that move at this tick have nothing left in their current slots. */
  ghost predicate Clear(w: Wheel, l: nat)
    requires |w.slots| == LEVELS * SLOTS && l < LEVELS
    decreases LEVELS - l
  {
    Cur(w, l) == [] && (Cascades(w.now, l) ==> Clear(w, l + 1))
  }

  predicate Cascades(now: nat, l: nat) { Digit(now, l) == 0 && l < LEVELS - 1 }

  lemma {:induction false} ShrunkClear(w: Wheel, w': Wheel, l: nat)
    requires Shrunk(w, w') && l < LEVELS && Clear(w, l)
    ensures Clear(w', l)
    decreases LEVELS - l
  {
    if Cascades(w.now, l) { ShrunkClear(w, w', l + 1); }
    assert |Cur(w', l)| <= |Cur(w, l)|;
  }

  lemma DrainClears(w: Wheel, l: nat, script: Script)
    requires Valid(w) && l < LEVELS && Polite(script) && (Cascades(w.now, l) ==> Clear(w, l + 1))
    ensures Clear(Drain(w, l, script), l)
  {
    var w' := Drain(w, l, script);
    hide Valid, Drain, Polite, Digit, CurSlot;
    if Cascades(w.now, l) { ShrunkClear(w, w', l + 1); }
  }

  /** `process_current_slot` without a limit: the higher levels first. */
  ghost function Process(w: Wheel, l: nat, script: Script): (w': Wheel)
    requires Valid(w) && l < LEVELS && Polite(script)
    ensures Valid(w') && Shrunk(w, w') && Clear(w', l)
    decreases LEVELS - l
  {
    var u := if Cascades(w.now, l) then Process(w, l + 1, script) else w;
    DrainClears(u, l, script);
    Drain(u, l, script)
  }

  /** Processing what is clear does nothing. */
  lemma {:induction false} ProcessClear(w: Wheel, l: nat, script: Script)
    requires Valid(w) && l < LEVELS && Polite(script) && Clear(w, l)
    ensures Process(w, l, script) == w
    decreases LEVELS - l
  {
    if Cascades(w.now, l) { ProcessClear(w, l + 1, script); }
  }

  lemma ProcessIsDrain(w: Wheel, l: nat, script: Script)
    requires Valid(w) && l < LEVELS && Polite(script) && (Cascades(w.now, l) ==> Clear(w, l + 1))
    ensures Process(w, l, script) == Drain(w, l, script)
  {
    if Cascades(w.now, l) { ProcessClear(w, l + 1, script); }
  }

  /** Any single turn, at the highest level that has something to do, leaves the outcome the same. */
  lemma ProcessTurn(w: Wheel, l: nat, script: Script)
    requires Valid(w) && l < LEVELS && Polite(script) && Cur(w, l) != []
    requires Cascades(w.now, l) ==> Clear(w, l + 1)
    ensures Process(Turn(w, l, script), l, script) == Process(w, l, script)
  {
    var w' := Turn(w, l, script);
    hide *;
    if Cascades(w.now, l) { ShrunkClear(w, w', l + 1); }
    ProcessIsDrain(w, l, script);
    ProcessIsDrain(w', l, script);
  }

  lemma {:induction false} EmptyClear(w: Wheel, l: nat)
    requires |w.slots| == LEVELS * SLOTS && l < LEVELS && forall a :: 0 <= a < |w.slots| ==> w.slots[a] == []
    ensures Clear(w, l)
    decreases LEVELS - l
  {
    if Cascades(w.now, l) { EmptyClear(w, l + 1); }
  }

  /** When the tick is done every scheduled event is ahead on its level. */
  lemma {:induction false} ClearDue(w: Wheel, l: nat, m: nat)
    requires |w.slots| == LEVELS * SLOTS && l <= m < LEVELS && Clear(w, l) && Due(w.now, m)
    ensures Cur(w, m) == []
    decreases m - l
  {
    if l < m {
      DueBelow(w.now, l + 1, m);
      ClearDue(w, l + 1, m);
    }
  }

  lemma ClearAhead(w: Wheel, e: Event)
    requires Valid(w) && Clear(w, 0) && e in w.slot
    ensures w.now < w.at[e] && Shift(w.now, w.slot[e] / SLOTS) < Shift(w.at[e], w.slot[e] / SLOTS)
  {
    var a := w.slot[e];
    var l := a / SLOTS;
    assert e in w.slots[a] && a == l * SLOTS + a % SLOTS && InPlace(w.now, w.at[e], a);
    if Due(w.now, l) { ClearDue(w, 0, l); }
  }

  /** The clock moves on by one tick, on every level that is due. */
  ghost function Ticked(w: Wheel): (w': Wheel)
    requires Valid(w) && Clear(w, 0) && w.now + 1 < MAX_TICK
    ensures Valid(w') && w'.now == w.now + 1
  {
    TickedTimed(w);
    w.(now := w.now + 1)
  }

  lemma TickedTimed(w: Wheel)
    requires Valid(w) && Clear(w, 0) && w.now + 1 < MAX_TICK
    ensures Timed(w.now + 1, w.slot, w.at)
  {
    forall e | e in w.slot ensures e in w.at && InPlace(w.now + 1, w.at[e], w.slot[e]) {
      ClearAhead(w, e);
      ShiftTick(w.now, w.slot[e] / SLOTS);
    }
  }

  /** `advance` without a limit: the current tick is completed, and `n` more. */
  ghost function Complete(w: Wheel, n: nat, script: Script): (w': Wheel)
    requires Valid(w) && Polite(script) && w.now + n < MAX_TICK
    ensures Valid(w') && Clear(w', 0) && w'.now == w.now + n
    decreases n
  {
    var u := Process(w, 0, script);
    if n == 0 then u else Complete(Ticked(u), n - 1, script)
  }

  lemma CompleteStep(w: Wheel, n: nat, script: Script)
    requires Valid(w) && Polite(script) && w.now + n < MAX_TICK
    ensures var u := Process(w, 0, script); Valid(u) && Clear(u, 0) && u.now == w.now
    ensures Complete(Process(w, 0, script), n, script) == Complete(w, n, script)
    ensures n > 0 ==>
      var t := Ticked(Process(w, 0, script)); t.now == w.now + 1 && Complete(w, n, script) == Complete(t, n - 1, script)
  {
    ProcessClear(Process(w, 0, script), 0, script);
  }

  /** Advancing in two parts is advancing once. */
  lemma {:induction false} CompleteSplit(w: Wheel, m: nat, n: nat, script: Script)
    requires Valid(w) && Polite(script) && w.now + m + n < MAX_TICK
    ensures Complete(Complete(w, m, script), n, script) == Complete(w, m + n, script)
    decreases m
  {
    CompleteStep(w, m, script);
    CompleteStep(w, m + n, script);
    if m == 0 {
      assert Complete(w, 0, script) == Process(w, 0, script);
    } else {
      hide Complete, Ticked, Process, Valid, Clear, Polite;
      CompleteSplit(Ticked(Process(w, 0, script)), m - 1, n, script);
    }
  }

  // ---------------------------------------------------------------------------------------
  // What the history says
  // ---------------------------------------------------------------------------------------

  /** After entry `i`, event `e` is neither scheduled anew nor cancelled. */
  ghost predicate Undisturbed(log: seq<Entry>, i: nat, e: Event) {
    forall j :: i < j < |log| && log[j].event == e ==> log[j].Fired?
  }

  /** A scheduled event that is left alone is still pending, or was fired once, at its tick. */
  lemma {:induction false} Once(log: seq<Entry>, i: nat) returns (j: nat)
    requires OnTime(log) && i < |log| && log[i].Scheduled? && Undisturbed(log, i, log[i].event)
    ensures i < j <= |log|
    ensures j == |log| ==> log[i].event in Pending(log) && Pending(log)[log[i].event] == log[i].tick
    ensures j < |log| ==> log[j] == Fired(log[i].event, log[i].tick) && log[i].event !in Pending(log)
    ensures forall k :: i < k < |log| && k != j ==> log[k].event != log[i].event
  {
    var n := |log| - 1;
    if i == n { return n + 1; }
    var before := log[..n];
    j := Once(before, i);
    if j == n && log[n].event != log[i].event { j := n + 1; }
  }

  /**
   When a tick is done, an event scheduled for tick `t` and then left alone has been executed exactly once, at
   clock `t`, if the clock has reached `t`, and not at all before.
   */
  lemma ExactlyOnce(w: Wheel, i: nat) returns (j: nat)
    requires Valid(w) && Clear(w, 0) && i < |w.log| && w.log[i].Scheduled? && Undisturbed(w.log, i, w.log[i].event)
    ensures i < j <= |w.log| && (j < |w.log| <==> w.log[i].tick <= w.now)
    ensures j < |w.log| ==> w.log[j] == Fired(w.log[i].event, w.log[i].tick)
    ensures forall k :: i < k < |w.log| && k != j ==> w.log[k].event != w.log[i].event
  {
    j := Once(w.log, i);
    if j == |w.log| { ClearAhead(w, w.log[i].event); }
  }

  // ---------------------------------------------------------------------------------------
  // Callbacks
  // ---------------------------------------------------------------------------------------

  /** What an action at tick `t` leaves in the history. */
  function Trace(a: Action, t: nat): Entry {
    match a
    case Schedule(e, d) => Scheduled(e, t + d)
    case Cancel(e) => Cancelled(e)
  }

  /** The firing at entry `i` is followed by what its callback does, action by action. */
  ghost predicate Heeded(log: seq<Entry>, i: nat, script: Script)
    requires i < |log|
  {
    log[i].Fired? ==>
      var acts := script(log[..i + 1]);
      && i + |acts| < |log|
      && forall k :: 0 <= k < |acts| ==> log[i + 1 + k] == Trace(acts[k], log[i].tick)
  }

  /** Every callback has been carried out, in order and completely. */
  ghost predicate Scripted(log: seq<Entry>, script: Script) {
    forall i :: 0 <= i < |log| ==> Heeded(log, i, script)
  }

  lemma HeededOn(log: seq<Entry>, more: seq<Entry>, i: nat, script: Script)
    requires i < |log| && Heeded(log, i, script)
    ensures Heeded(log + more, i, script)
  {
    assert (log + more)[..i + 1] == log[..i + 1];
  }

  /** Entries that are no firings need no callback. */
  lemma ScriptedOn(log: seq<Entry>, more: seq<Entry>, script: Script)
    requires Scripted(log, script) && forall i :: 0 <= i < |more| ==> !more[i].Fired?
    ensures Scripted(log + more, script)
  {
    forall i | 0 <= i < |log + more| ensures Heeded(log + more, i, script) {
      if i < |log| { HeededOn(log, more, i, script); }
    }
  }

  lemma ActTrace(w: Wheel, a: Action)
    requires Valid(w) && Allowed([a], w.now)
    ensures Act(w, a).log == w.log + [Trace(a, w.now)] && Act(w, a).now == w.now
  {
    assert [a][0] == a;
  }

  /** `log'` is `log` and then the traces of the actions. */
  ghost predicate Traced(log: seq<Entry>, log': seq<Entry>, acts: seq<Action>, t: nat) {
    && |log'| == |log| + |acts| && log'[..|log|] == log
    && forall k :: 0 <= k < |acts| ==> log'[|log| + k] == Trace(acts[k], t)
  }

  lemma TracedOn(log: seq<Entry>, log': seq<Entry>, acts: seq<Action>, t: nat)
    requires acts != [] && Traced(log + [Trace(acts[0], t)], log', acts[1..], t)
    ensures Traced(log, log', acts, t)
  {
    var mid := log + [Trace(acts[0], t)];
    assert log'[..|log|] == log'[..|mid|][..|log|];
    forall k | 0 <= k < |acts| ensures log'[|log| + k] == Trace(acts[k], t) {
      if k == 0 { assert log'[|log|] == log'[..|mid|][|log|]; }
      else { assert log'[|mid| + (k - 1)] == Trace(acts[1..][k - 1], t); }
    }
  }

  lemma {:induction false} ActAllTraces(w: Wheel, acts: seq<Action>)
    requires Valid(w) && Allowed(acts, w.now)
    ensures Traced(w.log, ActAll(w, acts).log, acts, w.now)
    decreases |acts|
  {
    hide Valid, Act, Traced, Shrunk;
    if acts == [] {
      TracedNone(w.log, w.now);
    } else {
      var rest := acts[1..];
      assert forall i :: 0 <= i < |rest| ==> rest[i] == acts[i + 1];
      ActTrace(w, acts[0]);
      ActAllTraces(Act(w, acts[0]), rest);
      TracedOn(w.log, ActAll(w, acts).log, acts, w.now);
    }
  }

  lemma TracedNone(log: seq<Entry>, t: nat)
    ensures Traced(log, log, [], t)
  {
  }

  /** A firing and the traces of its callback keep the history scripted. */
  lemma FiredScripted(log: seq<Entry>, e: Event, t: nat, log': seq<Entry>, script: Script)
    requires Scripted(log, script)
    requires var u := log + [Fired(e, t)]; Traced(u, log', script(u), t)
    ensures Scripted(log', script)
  {
    var u, n := log + [Fired(e, t)], |log|;
    assert log'[..n + 1] == u && log' == log + log'[n..];
    forall i | 0 <= i < |log'| ensures Heeded(log', i, script) {
      if i < n { HeededOn(log, log'[n..], i, script); }
      else if i > n { assert log'[|u| + (i - n - 1)] == Trace(script(u)[i - n - 1], t); }
    }
  }

  lemma ExecuteScripted(w: Wheel, e: Event, script: Script)
    requires Valid(w) && e in w.slot && w.at[e] == w.now && Polite(script) && Scripted(w.log, script)
    ensures Scripted(Execute(w, e, script).log, script)
  {
    hide Valid, Scripted, Traced, ActAll, Unlink;
    Sized(w);
    PoppedKeeps(w, e);
    PoppedNow(w, e);
    var u := Popped(w, e);
    PoliteAllows(script, u.log);
    ActAllTraces(u, script(u.log));
    FiredScripted(w.log, e, w.now, Execute(w, e, script).log, script);
  }

  lemma PoppedNow(w: Wheel, e: Event)
    requires Located(w.slots, w.slot)
    ensures Popped(w, e).now == w.now && Popped(w, e).log == w.log + [Fired(e, w.now)]
  {
  }

  lemma TurnScripted(w: Wheel, l: nat, script: Script)
    requires Valid(w) && l < LEVELS && Cur(w, l) != [] && Polite(script) && Scripted(w.log, script)
    ensures Scripted(Turn(w, l, script).log, script)
  {
    hide Valid, Scripted, Execute, Place, Unlink, Located, Due, CurSlot;
    Sized(w);
    HeadOfCurrent(w, l);
    var e := Cur(w, l)[0];
    if l == 0 || w.now >= w.at[e] { ExecuteScripted(w, e, script); } else { CascadeKeeps(w, e); }
  }

  lemma Sized(w: Wheel)
    requires Valid(w)
    ensures |w.slots| == LEVELS * SLOTS && Located(w.slots, w.slot)
  {
  }

  lemma {:induction false} DrainScripted(w: Wheel, l: nat, script: Script)
    requires Valid(w) && l < LEVELS && Polite(script) && Scripted(w.log, script)
    ensures Scripted(Drain(w, l, script).log, script)
    decreases |Cur(w, l)|
  {
    hide Valid, Turn, Scripted, Polite;
    Sized(w);
    if Cur(w, l) != [] {
      TurnScripted(w, l, script);
      DrainScripted(Turn(w, l, script), l, script);
    }
  }

  lemma {:induction false} ProcessScripted(w: Wheel, l: nat, script: Script)
    requires Valid(w) && l < LEVELS && Polite(script) && Scripted(w.log, script)
    ensures Scripted(Process(w, l, script).log, script)
    decreases LEVELS - l
  {
    hide Valid, Drain, Scripted, Polite;
    if Cascades(w.now, l) { ProcessScripted(w, l + 1, script); }
    var u := if Cascades(w.now, l) then Process(w, l + 1, script) else w;
    DrainScripted(u, l, script);
  }

  /** An advance carries out the callbacks of everything that it executes. */
  lemma {:induction false} CompleteScripted(w: Wheel, n: nat, script: Script)
    requires Valid(w) && Polite(script) && w.now + n < MAX_TICK && Scripted(w.log, script)
    ensures Scripted(Complete(w, n, script).log, script)
    decreases n
  {
    hide Valid, Process, Scripted, Polite, Clear;
    ProcessScripted(w, 0, script);
    if n > 0 { CompleteScripted(Ticked(Process(w, 0, script)), n - 1, script); }
  }

  /** So what a callback schedules is executed exactly once, at the tick of the callback plus its delta, if it is left alone. */
  lemma CallbackFires(w: Wheel, script: Script, i: nat, k: nat) returns (j: nat)
    requires Valid(w) && Clear(w, 0) && Scripted(w.log, script) && i < |w.log| && w.log[i].Fired?
    requires var acts := script(w.log[..i + 1]);
      k < |acts| && acts[k].Schedule? && Undisturbed(w.log, i + 1 + k, acts[k].event)
    ensures var a, t := script(w.log[..i + 1])[k], w.log[i].tick;
      && i + 1 + k < j <= |w.log| && (j < |w.log| <==> t + a.delta <= w.now)
      && (j < |w.log| ==> w.log[j] == Fired(a.event, t + a.delta))
      && forall m :: i + 1 + k < m < |w.log| && m != j ==> w.log[m].event != a.event
  {
    assert Heeded(w.log, i, script);
    j := ExactlyOnce(w, i + 1 + k);
  }

  // ---------------------------------------------------------------------------------------
  // How many were executed
  // ---------------------------------------------------------------------------------------

  ghost function Fires(log: seq<Entry>): nat {
    if log == [] then 0 else Fires(log[..|log| - 1]) + if log[|log| - 1].Fired? then 1 else 0
  }

  lemma {:induction false} ActFires(w: Wheel, acts: seq<Action>)
    requires Valid(w) && Allowed(acts, w.now)
    ensures Fires(ActAll(w, acts).log) == Fires(w.log)
    decreases |acts|
  {
    if acts != [] {
      var w1 := Act(w, acts[0]);
      assert w1.log[..|w1.log| - 1] == w.log;
      assert forall i :: 0 <= i < |acts[1..]| ==> acts[1..][i] == acts[i + 1];
      ActFires(w1, acts[1..]);
    }
  }

  lemma PopFires(w: Wheel, e: Event)
    requires Located(w.slots, w.slot)
    ensures Fires(Popped(w, e).log) == Fires(w.log) + 1
  {
    assert Popped(w, e).log[..|w.log|] == w.log;
  }

  lemma PoliteAllows(script: Script, log: seq<Entry>)
    requires Polite(script) && log != [] && log[|log| - 1].Fired?
    ensures Allowed(script(log), log[|log| - 1].tick)
  {
  }

  lemma CurSlotBound(now: nat, l: nat)
    requires l < LEVELS
    ensures CurSlot(now, l) < LEVELS * SLOTS
  {
  }

  /** How often the limit of 0 lets events execute: the counter wraps around. */
  function Limit(budget: nat): nat { if budget == 0 then MAX_TICK else budget }

  /** Stopping short has used up the budget; otherwise every execution has been counted. */
  ghost predicate Spent(log: seq<Entry>, log': seq<Entry>, budget: nat, ok: bool, left: nat) {
    && left < MAX_TICK && (ok ==> Limit(left) <= Limit(budget))
    && Fires(log') >= Fires(log) + if ok then Limit(budget) - Limit(left) else Limit(budget)
  }

  lemma CascadeDue(now: nat, l: nat)
    requires Due(now, l) && Cascades(now, l)
    ensures Due(now, l + 1)
  {
  }

  /** What does not change the outcome of the levels above does not change the outcome. */
  lemma ProcessUp(w: Wheel, w': Wheel, l: nat, script: Script)
    requires Valid(w) && Valid(w') && w'.now == w.now && l < LEVELS && Polite(script) && Cascades(w.now, l)
    requires Process(w', l + 1, script) == Process(w, l + 1, script)
    ensures Process(w', l, script) == Process(w, l, script)
  {
  }

  lemma ProcessedClear(w: Wheel, l: nat, script: Script)
    requires Valid(w) && l < LEVELS && Polite(script)
    ensures Clear(Process(w, l, script), l)
  {
  }

  lemma TurnClear(w: Wheel, l: nat, script: Script)
    requires Valid(w) && l < LEVELS && Cur(w, l) != [] && Polite(script)
    requires Cascades(w.now, l) ==> Clear(w, l + 1)
    ensures Cascades(w.now, l) ==> Clear(Turn(w, l, script), l + 1)
  {
    if Cascades(w.now, l) { TurnClearAbove(w, l, l + 1, script); }
  }

  lemma TurnClearAbove(w: Wheel, l: nat, m: nat, script: Script)
    requires Valid(w) && l < LEVELS && m < LEVELS && Cur(w, l) != [] && Polite(script) && Clear(w, m)
    ensures Clear(Turn(w, l, script), m)
  {
    var w' := Turn(w, l, script);
    hide *;
    ShrunkClear(w, w', m);
  }

  lemma SlotDone(w: Wheel, l: nat, script: Script)
    requires Valid(w) && l < LEVELS && Cur(w, l) == [] && Polite(script)
    requires Cascades(w.now, l) ==> Clear(w, l + 1)
    ensures Process(w, l, script) == w
  {
    ProcessClear(w, l, script);
  }

  /** What does not change the outcome of the tick does not change the outcome of the advance. */
  lemma CompleteSame(w: Wheel, w': Wheel, n: nat, script: Script)
    requires Valid(w) && Valid(w') && Polite(script) && w'.now == w.now && w.now + n < MAX_TICK
    requires Process(w', 0, script) == Process(w, 0, script)
    ensures Complete(w', n, script) == Complete(w, n, script)
  {
  }

  /** When the current tick is done, advancing goes on with the next. */
  lemma CompleteTick(w: Wheel, n: nat, script: Script)
    requires Valid(w) && Polite(script) && Clear(w, 0) && w.now + n + 1 < MAX_TICK
    ensures Complete(w, n + 1, script) == Complete(Ticked(w), n, script)
  {
    ProcessClear(w, 0, script);
  }

  lemma CompleteNone(w: Wheel, script: Script)
    requires Valid(w) && Polite(script) && Clear(w, 0)
    ensures Complete(w, 0, script) == w
  {
    ProcessClear(w, 0, script);
  }
}
