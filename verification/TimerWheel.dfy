/**
 The timing wheel as it is built: slot heads, event links and level clocks changed in place, an `advance` that may
 stop after a number of executions and go on later. Every method is proved against the wheel as a value.
 */
module TimerWheel {
  import opened TimerWheelModel
  import TimerWakeup

  datatype Maybe<+T> = None | Some(value: T)

  /** A pointer field of all events; events without an entry hold the null pointer. */
  type Pointers = map<Event, Event>

  function Get(m: Pointers, e: Event): Maybe<Event> { if e in m then Some(m[e]) else None }

  function Set(m: Pointers, e: Event, v: Maybe<Event>): Pointers {
    if v.Some? then m[e := v.value] else m - {e}
  }

  // ---------------------------------------------------------------------------------------
  // Lists as links
  // ---------------------------------------------------------------------------------------

  function Nth(l: seq<Event>, i: int): Maybe<Event> { if 0 <= i < |l| then Some(l[i]) else None }

  ghost predicate LinkedAt(l: seq<Event>, i: nat, next: Pointers, prev: Pointers)
    requires i < |l|
  {
    Get(next, l[i]) == Nth(l, i + 1) && Get(prev, l[i]) == Nth(l, i - 1)
  }

  ghost predicate Linked(l: seq<Event>, head: Maybe<Event>, next: Pointers, prev: Pointers) {
    head == Nth(l, 0) && forall i :: 0 <= i < |l| ==> LinkedAt(l, i, next, prev)
  }

  ghost predicate AllLinked(slots: seq<seq<Event>>, heads: seq<Maybe<Event>>, next: Pointers, prev: Pointers) {
    |heads| == |slots| && forall a :: 0 <= a < |slots| ==> Linked(slots[a], heads[a], next, prev)
  }

  lemma {:induction false} WithoutAt(l: seq<Event>, i: nat)
    requires Distinct(l) && i < |l|
    ensures Without(l, l[i]) == l[..i] + l[i + 1..]
  {
    if i > 0 {
      WithoutAt(l[1..], i - 1);
      assert l[1..][..i - 1] + l[1..][i..] == l[1..i] + l[i + 1..];
      assert [l[0]] + l[1..i] == l[..i];
    }
  }

  /** The neighbours of `e` are joined. */
  function CutNext(next: Pointers, prev: Pointers, e: Event): Pointers {
    if e in prev then Set(next, prev[e], Get(next, e)) else next
  }

  function CutPrev(next: Pointers, prev: Pointers, e: Event): Pointers {
    if e in next then Set(prev, next[e], Get(prev, e)) else prev
  }

  lemma CutAt(l: seq<Event>, i: nat, j: nat, next: Pointers, prev: Pointers)
    requires Distinct(l) && i < |l| && j < |l| && i != j && LinkedAt(l, i, next, prev) && LinkedAt(l, j, next, prev)
    ensures Get(CutNext(next, prev, l[i]), l[j]) == if j + 1 == i then Nth(l, i + 1) else Nth(l, j + 1)
    ensures Get(CutPrev(next, prev, l[i]), l[j]) == if j - 1 == i then Nth(l, i - 1) else Nth(l, j - 1)
  {
  }

  /** Joining the neighbours of an event takes it out of its list. */
  lemma CutLinked(l: seq<Event>, i: nat, head: Maybe<Event>, next: Pointers, prev: Pointers)
    requires Distinct(l) && i < |l| && Linked(l, head, next, prev)
    ensures Linked(Without(l, l[i]), if l[i] in prev then head else Get(next, l[i]), CutNext(next, prev, l[i]), CutPrev(next, prev, l[i]))
  {
    var e := l[i];
    WithoutAt(l, i);
    var r := l[..i] + l[i + 1..];
    assert LinkedAt(l, i, next, prev);
    forall k | 0 <= k < |r| ensures LinkedAt(r, k, CutNext(next, prev, e), CutPrev(next, prev, e)) {
      var j := if k < i then k else k + 1;
      assert r[k] == l[j] && LinkedAt(l, j, next, prev);
      CutAt(l, i, j, next, prev);
    }
  }

  /** A list none of whose events had its pointers changed is as it was. */
  lemma LinkedFrame(l: seq<Event>, head: Maybe<Event>, next: Pointers, prev: Pointers, next': Pointers, prev': Pointers)
    requires Linked(l, head, next, prev)
    requires forall x :: x in l ==> Get(next', x) == Get(next, x) && Get(prev', x) == Get(prev, x)
    ensures Linked(l, head, next', prev')
  {
    forall i | 0 <= i < |l| ensures LinkedAt(l, i, next', prev') { assert LinkedAt(l, i, next, prev); }
  }

  lemma PushLinked(l: seq<Event>, head: Maybe<Event>, next: Pointers, prev: Pointers, e: Event)
    requires Distinct(l) && Linked(l, head, next, prev) && e !in l
    ensures Linked([e] + l, Some(e), Set(next, e, head), Set(if head.Some? then prev[head.value := e] else prev, e, None))
  {
    var r := [e] + l;
    var next', prev' := Set(next, e, head), Set(if head.Some? then prev[head.value := e] else prev, e, None);
    forall k | 0 <= k < |r| ensures LinkedAt(r, k, next', prev') {
      if k > 0 { assert r[k] == l[k - 1] && LinkedAt(l, k - 1, next, prev); }
    }
  }

  /** Taking `e` out of the wheel, as the links see it. */
  lemma UnlinkLinks(w: Wheel, heads: seq<Maybe<Event>>, next: Pointers, prev: Pointers, e: Event)
    requires Located(w.slots, w.slot) && AllLinked(w.slots, heads, next, prev) && e in w.slot
    ensures var a := w.slot[e];
      (a < |heads| && AllLinked(Unlink(w, e).slots, heads[a := if e in prev then heads[a] else Get(next, e)],
                                CutNext(next, prev, e), CutPrev(next, prev, e)))
  {
    var a, u := w.slot[e], Unlink(w, e);
    var next', prev' := CutNext(next, prev, e), CutPrev(next, prev, e);
    var i :| 0 <= i < |w.slots[a]| && w.slots[a][i] == e;
    CutLinked(w.slots[a], i, heads[a], next, prev);
    NeighboursInSlot(w, heads, next, prev, e);
    forall b | 0 <= b < |w.slots| && b != a ensures Linked(w.slots[b], heads[b], next', prev') {
      forall x | x in w.slots[b] ensures Get(next', x) == Get(next, x) && Get(prev', x) == Get(prev, x) {
        assert w.slot[x] == b;
      }
      LinkedFrame(w.slots[b], heads[b], next, prev, next', prev');
    }
  }

  lemma NeighboursInSlot(w: Wheel, heads: seq<Maybe<Event>>, next: Pointers, prev: Pointers, e: Event)
    requires Located(w.slots, w.slot) && AllLinked(w.slots, heads, next, prev) && e in w.slot
    ensures e in next ==> next[e] in w.slot && w.slot[next[e]] == w.slot[e]
    ensures e in prev ==> prev[e] in w.slot && w.slot[prev[e]] == w.slot[e]
  {
    var a := w.slot[e];
    var i :| 0 <= i < |w.slots[a]| && w.slots[a][i] == e;
    assert LinkedAt(w.slots[a], i, next, prev);
  }

  /** Events in no slot may have their pointers cleared or set. */
  lemma OutsideLinks(slots: seq<seq<Event>>, heads: seq<Maybe<Event>>, next: Pointers, prev: Pointers, e: Event,
                     n: Maybe<Event>, p: Maybe<Event>)
    requires AllLinked(slots, heads, next, prev) && forall a :: 0 <= a < |slots| ==> e !in slots[a]
    ensures AllLinked(slots, heads, Set(next, e, n), Set(prev, e, p))
  {
    forall a | 0 <= a < |slots| ensures Linked(slots[a], heads[a], Set(next, e, n), Set(prev, e, p)) {
      LinkedFrame(slots[a], heads[a], next, prev, Set(next, e, n), Set(prev, e, p));
    }
  }

  lemma PushLinks(slots: seq<seq<Event>>, slot: map<Event, nat>, heads: seq<Maybe<Event>>, next: Pointers, prev: Pointers,
                  e: Event, a: nat)
    requires Located(slots, slot) && AllLinked(slots, heads, next, prev) && a < |slots| && e !in slot
    ensures AllLinked(slots[a := [e] + slots[a]], heads[a := Some(e)], Set(next, e, heads[a]),
                      Set(if heads[a].Some? then prev[heads[a].value := e] else prev, e, None))
  {
    var next' := Set(next, e, heads[a]);
    var prev' := Set(if heads[a].Some? then prev[heads[a].value := e] else prev, e, None);
    PushLinked(slots[a], heads[a], next, prev, e);
    forall b | 0 <= b < |slots| && b != a ensures Linked(slots[b], heads[b], next', prev') {
      if heads[a].Some? { assert slots[a][0] == heads[a].value; }
      LinkedFrame(slots[b], heads[b], next, prev, next', prev');
    }
  }

  lemma LocatedSize(slots: seq<seq<Event>>, slot: map<Event, nat>)
    requires Located(slots, slot)
    ensures |slots| == LEVELS * SLOTS
  {
  }

  /** The head of a slot that is not empty. */
  lemma HeadLinks(w: Wheel, heads: seq<Maybe<Event>>, next: Pointers, prev: Pointers, a: nat)
    requires Located(w.slots, w.slot) && AllLinked(w.slots, heads, next, prev) && a < |w.slots| && w.slots[a] != []
    ensures var e := w.slots[a][0]; a < |heads| && heads[a] == Some(e) && e !in prev && e in w.slot && w.slot[e] == a
  {
    assert LinkedAt(w.slots[a], 0, next, prev);
  }

  lemma AllowedOne(a: Action, now: nat)
    requires Allowed([a], now)
    ensures a.Schedule? ==> 0 < a.delta && now + a.delta < MAX_TICK
  {
    assert [a][0] == a;
  }

  lemma HeadOf(l: seq<Event>, head: Maybe<Event>, next: Pointers, prev: Pointers)
    requires Linked(l, head, next, prev)
    ensures head == Nth(l, 0) && (head.Some? <==> l != [])
  {
  }

  lemma NextOf(l: seq<Event>, k: nat, head: Maybe<Event>, next: Pointers, prev: Pointers)
    requires Linked(l, head, next, prev) && k < |l|
    ensures Nth(l, k) == Some(l[k]) && Get(next, l[k]) == Nth(l, k + 1) && (Nth(l, k + 1).Some? <==> k + 1 < |l|)
  {
    assert LinkedAt(l, k, next, prev);
  }

  lemma HeadsMatch(w: Wheel, heads: seq<Maybe<Event>>, next: Pointers, prev: Pointers)
    requires AllLinked(w.slots, heads, next, prev)
    ensures forall a :: 0 <= a < |heads| ==> (heads[a].Some? <==> w.slots[a] != [])
  {
  }

  class TimerWheel {
    const script: Script
    const now: array<nat>
    const heads: array<Maybe<Event>>
    var ticksPending: nat
    var next: Pointers
    var prev: Pointers
    var slotOf: map<Event, nat>
    var at: map<Event, nat>
    /** What happened so far, which callbacks may look at. */
    var log: seq<Entry>
    ghost var w: Wheel

    /** The lists and the event fields are those of `w`. */
    ghost predicate Links()
      reads `next, `prev, `slotOf, `at, `w, heads
    {
      && heads.Length == LEVELS * SLOTS && Located(w.slots, w.slot)
      && slotOf == w.slot && at == w.at && AllLinked(w.slots, heads[..], next, prev)
    }

    ghost predicate Rep()
      reads this, heads
    {
      Links() && log == w.log && now.Length == LEVELS && Polite(script) && TimerWheelModel.Valid(w)
    }

    /** All level clocks show the tick of `w`. */
    ghost predicate Synced()
      reads this, now
    {
      now.Length == LEVELS && forall l :: 0 <= l < LEVELS ==> now[l] == Shift(w.now, l)
    }

    /** The ticks still to come after the current one. */
    ghost function Left(): nat
      reads this
    {
      if ticksPending == 0 then 0 else ticksPending - 1
    }

    ghost predicate Valid()
      reads this, now, heads
    {
      Rep() && Synced() && (ticksPending == 0 ==> Clear(w, 0)) && Heeding()
    }

    /** Every callback of an executed event has been carried out. */
    ghost predicate Heeding()
      reads `w
    {
      Scripted(w.log, script)
    }

    constructor (start: nat, script: Script)
      requires start < MAX_TICK && Polite(script)
      ensures Valid() && w.now == start && w.slot == map[] && w.log == [] && ticksPending == 0
      ensures fresh(now) && fresh(heads) && this.script == script
    {
      this.script := script;
      now := new nat[LEVELS](i requires 0 <= i => Shift(start, i));
      heads := new Maybe<Event>[LEVELS * SLOTS](_ => None);
      ticksPending := 0;
      next, prev, slotOf, at, log := map[], map[], map[], map[], [];
      w := Wheel(start, seq(LEVELS * SLOTS, _ => []), map[], map[], []);
      new;
      EmptyClear(w, 0);
    }

    /** The first half of `relink`: the neighbours of `e` are joined. */
    method Detach(e: Event)
      requires Links() && e in slotOf
      modifies `next, `prev, `slotOf, `w, heads
      ensures Links() && w == Unlink(old(w), e)
    {
      hide Located, AllLinked, Without;
      LocatedSize(w.slots, w.slot);
      UnlinkLocated(w, e);
      UnlinkLinks(w, heads[..], next, prev, e);
      ghost var heads' := heads[..][w.slot[e] := if e in prev then heads[w.slot[e]] else Get(next, e)];
      var p, n := Get(prev, e), Get(next, e);
      if n.Some? { prev := Set(prev, n.value, p); }
      if p.Some? {
        next := Set(next, p.value, n);
      } else {
        heads[slotOf[e]] := n;
      }
      assert heads[..] == heads';
      slotOf := slotOf - {e};
      w := Unlink(w, e);
    }

    /** The second half of `relink`: `e` goes to the front of slot `a`. */
    method Attach(e: Event, a: nat)
      requires Links() && e !in slotOf && a < LEVELS * SLOTS
      modifies `next, `prev, `slotOf, `w, heads
      ensures Links() && w == old(w).(slots := old(w).slots[a := [e] + old(w).slots[a]], slot := old(w).slot[e := a])
    {
      hide Located, AllLinked;
      LocatedSize(w.slots, w.slot);
      PushLinks(w.slots, w.slot, heads[..], next, prev, e, a);
      PushLocated(w.slots, w.slot, e, a);
      var first := heads[a];
      next := Set(next, e, first);
      if first.Some? { prev := prev[first.value := e]; }
      heads[a] := Some(e);
      prev := Set(prev, e, None);
      slotOf := slotOf[e := a];
      w := w.(slots := w.slots[a := [e] + w.slots[a]], slot := w.slot[e := a]);
    }

    /** `relink`: out of the slot the event is in, and to the front of the new one. */
    method Relink(e: Event, target: Maybe<nat>)
      requires Links() && (target.Some? ==> target.value < LEVELS * SLOTS)
      modifies `next, `prev, `slotOf, `w, heads
      ensures Links() && w == if target.Some? then TimerWheelModel.Relink(old(w), e, target.value) else Unlink(old(w), e)
    {
      hide Located, AllLinked, Without;
      if target == (if e in slotOf then Some(slotOf[e]) else None) {
        return;
      }
      UnlinkLocated(w, e);
      if e in slotOf { Detach(e); }
      if target.Some? {
        Attach(e, target.value);
      } else {
        OutsideLinks(w.slots, heads[..], next, prev, e, None, None);
        next := Set(next, e, None);
        prev := Set(prev, e, None);
      }
    }

    /** `TimerSlotTpl::pop`. */
    method Pop(a: nat) returns (e: Event)
      requires Links() && a < LEVELS * SLOTS && w.slots[a] != []
      modifies `next, `prev, `slotOf, `w, heads
      ensures Links() && e == old(w.slots[a][0]) && w == Unlink(old(w), e)
    {
      hide AllLinked, Located, LinkedAt, Without;
      LocatedSize(w.slots, w.slot);
      HeadLinks(w, heads[..], next, prev, a);
      e := heads[a].value;
      UnlinkLocated(w, e);
      UnlinkLinks(w, heads[..], next, prev, e);
      assert CutNext(next, prev, e) == next;
      ghost var u, heads' := Unlink(w, e), heads[..][a := Get(next, e)];
      assert AllLinked(u.slots, heads', next, CutPrev(next, prev, e));
      OutsideLinks(u.slots, heads', next, CutPrev(next, prev, e), e, None, None);
      heads[a] := Get(next, e);
      assert heads[..] == heads';
      if heads[a].Some? { prev := Set(prev, heads[a].value, None); }
      assert prev == Set(CutPrev(next, old(prev), e), e, None);
      next := Set(next, e, None);
      slotOf := slotOf - {e};
      w := u;
    }

    /** `schedule`: up the levels until the distance fits one turn of the level. */
    method Reschedule(e: Event, delta: nat)
      requires Links() && Synced() && 0 < delta && w.now + delta < MAX_TICK
      modifies `next, `prev, `slotOf, `at, `w, heads
      ensures Links() && w == Place(old(w), e, old(w).now + delta)
    {
      hide Located, AllLinked, Climbing, SlotFor, LevelFrom, InPlace;
      ghost var s := w.now + delta;
      assert now[0] == w.now;
      ClimbBegins(w.now, s);
      at := at[e := now[0] + delta];
      w := w.(at := w.at[e := s]);
      var level: nat, d: nat := 0, delta;
      while d >= SLOTS
        invariant Climbing(w.now, s, level, d) && Links()
        decreases d
        modifies {}
      {
        ClimbOn(w.now, s, level, d);
        d := (d + now[level] % SLOTS) / SLOTS;
        level := level + 1;
      }
      ClimbDone(w.now, s, level, d);
      Relink(e, Some(level * SLOTS + (now[level] + d) % SLOTS));
    }

    /** What a callback does. */
    method Perform(acts: seq<Action>)
      requires Rep() && Synced() && Allowed(acts, w.now)
      modifies `next, `prev, `slotOf, `at, `log, `w, heads
      ensures Rep() && Synced() && w == ActAll(old(w), acts)
    {
      hide TimerWheelModel.Valid, Act, Located, AllLinked, Polite;
      ghost var w0 := w;
      for i := 0 to |acts|
        invariant Rep() && Synced() && w.now == w0.now
        invariant Allowed(acts[i..], w.now) && ActAll(w, acts[i..]) == ActAll(w0, acts)
      {
        assert acts[i..][0] == acts[i] && acts[i..][1..] == acts[i + 1..];
        PerformOne(acts[i]);
      }
    }

    method PerformOne(a: Action)
      requires Rep() && Synced() && Allowed([a], w.now)
      modifies `next, `prev, `slotOf, `at, `log, `w, heads
      ensures Rep() && Synced() && w == Act(old(w), a)
    {
      hide TimerWheelModel.Valid, ScheduleAt, CancelIt, Links, Synced, Allowed, Polite, Shrunk;
      AllowedOne(a, w.now);
      match a {
        case Schedule(e, d) => Schedule(e, d);
        case Cancel(e) => Cancel(e);
      }
    }

    method Schedule(e: Event, delta: nat)
      requires Rep() && Synced() && 0 < delta && w.now + delta < MAX_TICK
      modifies `next, `prev, `slotOf, `at, `log, `w, heads
      ensures Rep() && Synced() && w == ScheduleAt(old(w), e, old(w).now + delta)
      ensures Shrunk(old(w), w) && (old(Heeding()) ==> Heeding())
    {
      hide TimerWheelModel.Valid, Place, Located, AllLinked, Polite, Shrunk, Scripted;
      if Heeding() { ScriptedOn(w.log, [Scheduled(e, w.now + delta)], script); }
      ghost var s := w.now + delta;
      log := log + [Scheduled(e, now[0] + delta)];
      ScheduleKeeps(w, e, s);
      Reschedule(e, delta);
      w := w.(log := log);
    }

    method Cancel(e: Event)
      requires Rep() && Synced()
      modifies `next, `prev, `slotOf, `at, `log, `w, heads
      ensures Rep() && Synced() && w == CancelIt(old(w), e)
      ensures Shrunk(old(w), w) && (old(Heeding()) ==> Heeding())
    {
      hide TimerWheelModel.Valid, Located, AllLinked, Polite, Shrunk, Without, Shift, Scripted;
      if Heeding() { ScriptedOn(w.log, [Cancelled(e)], script); }
      CancelKeeps(w, e);
      if e in slotOf { Relink(e, None); }
      log := log + [Cancelled(e)];
      w := w.(log := log);
    }

    /** One turn of the loop of `process_current_slot`: an event is executed, or moves to a lower level. */
    method TurnOnce(level: nat) returns (fired: bool)
      requires Rep() && Synced() && level < LEVELS && Cur(w, level) != [] && Heeding()
      modifies `next, `prev, `slotOf, `at, `log, `w, heads
      ensures Rep() && Synced() && w == Turn(old(w), level, script) && w.now == old(w).now && Heeding()
      ensures Fires(w.log) == Fires(old(w).log) + if fired then 1 else 0
    {
      hide TimerWheelModel.Valid, Located, AllLinked, Polite, Shrunk, Unlink, Place, ActAll, Scripted;
      ghost var w0 := w;
      TurnScripted(w, level, script);
      LocatedSize(w.slots, w.slot);
      HeadOfCurrent(w, level);
      CurSlotBound(w.now, level);
      var e := Pop(CurSlot(now[0], level));
      if level == 0 || now[0] >= at[e] {
        PoppedKeeps(w0, e);
        PopFires(w0, e);
        log := log + [Fired(e, now[0])];
        w := w.(log := log);
        PoliteAllows(script, log);
        ActFires(w, script(log));
        Perform(script(log));
        return true;
      } else {
        CascadeKeeps(w0, e);
        Reschedule(e, at[e] - now[0]);
        return false;
      }
    }

    /** The tick that the levels which have not moved yet show. */
    ghost function Shown(): nat
      reads this
    {
      if ticksPending != 0 || w.now == 0 then w.now else w.now - 1
    }

    /** The levels below `k` have moved to the tick of `w`; the others will, or have if the tick is being resumed. */
    ghost predicate SyncedBelow(k: nat)
      reads this, now
    {
      now.Length == LEVELS && forall l :: 0 <= l < LEVELS ==> now[l] == Shift(if l < k then w.now else Shown(), l)
    }

    /** Levels above one that does not cascade have nothing to move. */
    lemma NothingAbove(level: nat)
      requires SyncedBelow(level + 1) && level < LEVELS && (ticksPending == 0 ==> w.now > 0)
      requires !Cascades(w.now, level)
      ensures Synced()
    {
      if ticksPending == 0 {
        forall l | level < l < LEVELS ensures now[l] == Shift(w.now, l) {
          ShiftTick(w.now - 1, l);
          if Due(w.now, l) { DueBelow(w.now, level + 1, l); }
        }
      }
    }

    /** `process_current_slot`. A budget of 0 counts as 2 to the 64. */
    method ProcessCurrentSlot(level: nat, budget: nat) returns (ok: bool, left: nat)
      requires Rep() && level < LEVELS && SyncedBelow(level + 1) && Due(w.now, level) && budget < MAX_TICK
      requires (ticksPending == 0 ==> w.now > 0) && Heeding()
      modifies this, now, heads
      ensures Heeding()
      ensures Rep() && Synced() && w.now == old(w).now && Spent(old(w).log, w.log, budget, ok, left)
      ensures Process(w, level, script) == Process(old(w), level, script)
      ensures ok ==> w == Process(old(w), level, script)
      ensures ok || old(ticksPending) != 0 ==> ticksPending == old(ticksPending)
      decreases LEVELS - level, 1
    {
      hide TimerWheelModel.Valid, Links, Polite, Process, Clear, Turn, Shift, Fires, Heeding;
      ghost var w0 := w;
      left := budget;
      if now[level] % SLOTS == 0 && level < LEVELS - 1 {
        CascadeDue(w.now, level);
        ok := AdvanceLevel(level + 1, left);
        ProcessUp(w0, w, level, script);
        if !ok { return false, left; }
        ProcessedClear(w0, level + 1, script);
      } else {
        NothingAbove(level);
      }
      ok, left := DrainSlot(level, left, w0);
    }

    /** The loop of `process_current_slot`. */
    method DrainSlot(level: nat, budget: nat, ghost w0: Wheel) returns (ok: bool, left: nat)
      requires Rep() && Synced() && level < LEVELS && budget < MAX_TICK
      requires Cascades(w.now, level) ==> Clear(w, level + 1)
      requires TimerWheelModel.Valid(w0) && w0.now == w.now && Heeding()
      requires Process(w, level, script) == Process(w0, level, script) && Spent(w0.log, w.log, budget, true, budget)
      modifies `next, `prev, `slotOf, `at, `log, `w, heads
      ensures Heeding()
      ensures Rep() && Synced() && w.now == old(w).now && Spent(w0.log, w.log, budget, ok, left)
      ensures Process(w, level, script) == Process(w0, level, script)
      ensures ok ==> w == Process(w0, level, script)
    {
      hide TimerWheelModel.Valid, Links, Synced, Polite, Process, Clear, Turn, Shift, Fires, Heeding;
      left := budget;
      HeadIs(level);
      while heads[CurSlot(now[0], level)].Some?
        invariant Rep() && Synced() && w.now == w0.now && |w.slots| == LEVELS * SLOTS && Heeding()
        invariant HeadShows(level) && (Cascades(w.now, level) ==> Clear(w, level + 1))
        invariant Process(w, level, script) == Process(w0, level, script) && Spent(w0.log, w.log, budget, true, left)
        decreases |Cur(w, level)|
      {
        ProcessTurn(w, level, script);
        TurnClear(w, level, script);
        var fired := TurnOnce(level);
        HeadIs(level);
        if fired {
          left := if left == 0 then MAX_TICK - 1 else left - 1;
          if left == 0 { return false, left; }
        }
      }
      ok := true;
      SlotDone(w, level, script);
    }

    /** The head of the current slot says whether the slot is empty. */
    ghost predicate HeadShows(level: nat)
      requires level < LEVELS
      reads this, now, heads
    {
      && now.Length == LEVELS && heads.Length == |w.slots| == LEVELS * SLOTS && now[0] == w.now
      && CurSlot(w.now, level) < heads.Length
      && (heads[CurSlot(w.now, level)].Some? <==> Cur(w, level) != [])
    }

    lemma HeadIs(level: nat)
      requires Rep() && Synced() && level < LEVELS
      ensures HeadShows(level)
    {
      CurSlotBound(w.now, level);
      HeadsMatch(w, heads[..], next, prev);
    }

    /** `advance(1, budget, level)` for a level above 0. */
    method AdvanceLevel(level: nat, budget: nat) returns (ok: bool)
      requires Rep() && 0 < level < LEVELS && SyncedBelow(level) && Due(w.now, level) && budget < MAX_TICK
      requires (ticksPending == 0 ==> w.now > 0) && Heeding()
      modifies this, now, heads
      ensures Heeding()
      ensures Rep() && Synced() && w.now == old(w).now && exists left :: Spent(old(w).log, w.log, budget, ok, left)
      ensures Process(w, level, script) == Process(old(w), level, script)
      ensures ok ==> w == Process(old(w), level, script) && ticksPending == old(ticksPending)
      ensures old(ticksPending) != 0 ==> ticksPending == old(ticksPending)
      decreases LEVELS - level, 2
    {
      hide TimerWheelModel.Valid, Links, Polite, Process, Clear, Turn, Fires, Heeding;
      var left;
      if ticksPending != 0 {
        ok, left := ProcessCurrentSlot(level, budget);
      } else {
        ShiftTick(w.now - 1, level);
        now[level] := now[level] + 1;
        ok, left := ProcessCurrentSlot(level, budget);
        if !ok { ticksPending := 1; }
      }
    }

    /**
     `advance` of the whole wheel. However often it stops short, what is done now and what is left come together to
     one uninterrupted advance, and clock plus ticks left grows by the ticks requested.
     */
    method Advance(delta: nat, maxExecute: nat) returns (ok: bool)
      requires Valid() && (delta > 0 || ticksPending > 0) && maxExecute < MAX_TICK
      requires w.now + Left() + delta < MAX_TICK
      modifies this, now, heads
      ensures Valid() && ok == (ticksPending == 0)
      ensures w.now + Left() == old(w.now + Left()) + delta
      ensures Complete(w, Left(), script) == Complete(old(w), old(Left()) + delta, script)
      ensures ok ==> w == Complete(old(w), old(Left()) + delta, script)
      ensures exists left :: Spent(old(w).log, w.log, maxExecute, ok, left)
    {
      hide TimerWheelModel.Valid, Links, Polite, Process, Complete, Clear, Turn, Shift, Fires, Ticked, Heeding;
      ghost var w0, total := w, Left() + delta;
      var left: nat, ticks: nat := maxExecute, delta;
      if ticksPending != 0 {
        ticksPending := ticksPending + delta;
        ok, left := ProcessCurrentSlot(0, left);
        CompleteSame(w0, w, total, script);
        if !ok { return false; }
        ProcessedClear(w0, 0, script);
        ticks := ticksPending - 1;
        ticksPending := 0;
      }
      while ticks > 0
        invariant Valid() && ticksPending == 0 && w.now + ticks == w0.now + total
        invariant Complete(w, ticks, script) == Complete(w0, total, script) && Spent(w0.log, w.log, maxExecute, true, left)
      {
        ticks := ticks - 1;
        ghost var was := w;
        CompleteTick(w, ticks, script);
        StartTick();
        ok, left := ProcessCurrentSlot(0, left);
        CompleteSame(Ticked(was), w, ticks, script);
        if !ok {
          ticksPending := ticks + 1;
          assert Spent(w0.log, w.log, maxExecute, false, left);
          return false;
        }
        ProcessedClear(Ticked(was), 0, script);
      }
      ok := true;
      CompleteNone(w, script);
    }

    /** `++M_now[0]`: a new tick begins, the higher levels have yet to follow. */
    method StartTick()
      requires Valid() && ticksPending == 0 && w.now + 1 < MAX_TICK
      modifies `w, now
      ensures Heeding() && Rep() && SyncedBelow(1) && w == Ticked(old(w)) && w.now == old(w).now + 1 && Due(w.now, 0)
      ensures w.log == old(w).log
    {
      w := Ticked(w);
      now[0] := now[0] + 1;
    }

    /** The least of `minTick` and the distances of the events of slot `a`. */
    method NearestIn(a: nat, minTick: int) returns (m: int)
      requires Rep() && Synced() && a < LEVELS * SLOTS
      ensures |w.slots| == LEVELS * SLOTS && forall i :: 0 <= i < |w.slots[a]| ==> w.slots[a][i] in w.at
      ensures m == TimerWakeup.Nearest(w, w.slots[a], minTick)
    {
      hide TimerWheelModel.Valid, Located, LinkedAt, Nth, Polite;
      TimerWakeup.SlotKnown(w, a);
      ghost var l := w.slots[a];
      m := minTick;
      var event := heads[a];
      ghost var k: nat := 0;
      assert l[0..] == l;
      HeadOf(l, heads[a], next, prev);
      while event.Some?
        invariant k <= |l| && event == Nth(l, k) && (event.Some? <==> k < |l|)
        invariant TimerWakeup.Nearest(w, l[k..], m) == TimerWakeup.Nearest(w, l, minTick)
        decreases |l| - k
      {
        NextOf(l, k, heads[a], next, prev);
        assert l[k..][1..] == l[k + 1..];
        m := TimerWakeup.Min(m, at[event.value] as int - now[0]);
        event := Get(next, event.value);
        k := k + 1;
      }
    }

    /** `ticks_to_wakeup`. */
    method TicksToWakeup(max: nat, level: nat) returns (r: int)
      requires Valid() && level < LEVELS
      ensures TimerWheelModel.Valid(w)
      ensures r == if ticksPending != 0 then 0 else TimerWakeup.WakeFrom(w, max, level, 0, max)
      decreases LEVELS - level
    {
      hide TimerWheelModel.Valid, Located, AllLinked, Polite, Clear, Shift;
      if ticksPending != 0 { return 0; }
      var minTick: int := max;
      for i := 0 to SLOTS
        invariant TimerWakeup.WakeFrom(w, max, level, i, minTick) == TimerWakeup.WakeFrom(w, max, level, 0, max)
      {
        SlotShows(level, i);
        var index := (now[level] + 1 + i) % SLOTS;
        if index == 0 && level < LEVELS - 1 {
          if level > 0 || !heads[level * SLOTS].Some? {
            minTick := NearestIn((level + 1) * SLOTS + (now[level + 1] + 1) % SLOTS, minTick);
          }
        }
        if heads[level * SLOTS + index].Some? {
          if level == 0 {
            return TimerWakeup.Min(minTick, at[heads[index].value] as int - now[0]);
          }
          minTick := NearestIn(level * SLOTS + index, minTick);
          return minTick;
        }
      }
      if level < LEVELS - 1 && Shift(max, level) / 2 > 0 {
        r := TicksToWakeup(max, level + 1);
      } else {
        r := max;
      }
    }

    /** The heads that the search at slot `i` of a level looks at. */
    lemma SlotShows(level: nat, i: nat)
      requires Rep() && Synced() && level < LEVELS && i < SLOTS
      ensures now.Length == LEVELS && heads.Length == |w.slots| == LEVELS * SLOTS && at == w.at && now[0] == w.now
      ensures now[level] == Shift(w.now, level) && (level < LEVELS - 1 ==> now[level + 1] == Shift(w.now, level + 1))
      ensures var a := TimerWakeup.After(w, level, i);
        (a < heads.Length && (heads[a].Some? <==> w.slots[a] != []) && (w.slots[a] != [] ==> heads[a] == Some(w.slots[a][0]) && w.slots[a][0] in w.at))
      ensures heads[level * SLOTS].Some? <==> w.slots[level * SLOTS] != []
    {
      var a := TimerWakeup.After(w, level, i);
      TimerWakeup.SlotKnown(w, a);
      HeadsMatch(w, heads[..], next, prev);
      assert Linked(w.slots[a], heads[..][a], next, prev);
    }
  }
}
