/**
 The order of the bounded queue. As long as no slot has two producers or two consumers with a ticket, each item is
 returned to the pop ticket with the number of its push ticket. Otherwise the order can break, with `try_push` and
 `try_pop` alone.
 */
module AtomicQueueOrder {
  import opened AtomicQueue

  // ---------------------------------------------------------------------------------------
  // In single file the queue is first in, first out
  // ---------------------------------------------------------------------------------------

  predicate Stamps(p: Pc, op: nat, n: nat) { HasPushTicket(p) && p.x.op == op && p.ticket == n }

  ghost predicate StampIn(s: State, op: nat, n: nat) { exists t :: t in s.pc && Stamps(s.pc[t], op, n) }

  /** Some thread has had push ticket `n` for the item of `op`. */
  ghost predicate Stamped(run: seq<State>, op: nat, n: nat) { exists i :: 0 <= i < |run| && StampIn(run[i], op, n) }

  /** No slot has two producers or two consumers with a ticket. */
  ghost predicate SingleFile(s: State)
  {
    && (forall i :: 0 <= i < |s.producers| ==> |s.producers[i]| <= 1)
    && (forall i :: 0 <= i < |s.consumers| ==> |s.consumers[i]| <= 1)
  }

  /** The ticket of a thread is the last that has been given out for its slot. */
  ghost predicate LastTicket(c: Conf, s: State, t: Tid)
    requires Sized(c, s) && c.size > 0 && t in s.pc
  {
    var p := s.pc[t];
    && (HasPushTicket(p) ==> p.ticket < s.head && Tickets(c, p.ticket, Slot(c, p.ticket)) + 1 == Tickets(c, s.head, Slot(c, p.ticket)))
    && (HasPopTicket(p) ==> p.ticket < s.tail && Tickets(c, p.ticket, Slot(c, p.ticket)) + 1 == Tickets(c, s.tail, Slot(c, p.ticket)))
  }

  /** How many items have been taken out of slot `i`. */
  ghost function TakenOut(c: Conf, s: State, i: nat): int
    requires Sized(c, s) && i < c.size
  {
    Tickets(c, s.tail, i) - |s.consumers[i]|
  }

  /** The item in a slot came with the ticket whose turn it is to be taken out. */
  ghost predicate InTurn(c: Conf, run: seq<State>, i: nat)
    requires |run| > 0 && Sized(c, run[|run| - 1]) && i < c.size
  {
    var s := run[|run| - 1];
    (s.cells[i].state == Stored || s.cells[i].state == Loading) ==>
      forall n :: Stamped(run, s.cells[i].elem.op, n) ==> Slot(c, n) == i && Tickets(c, n, i) == TakenOut(c, s, i)
  }

  /** A ticket is given once to an item. */
  ghost predicate StampOnce(run: seq<State>, t: Tid)
    requires |run| > 0 && t in run[|run| - 1].pc
  {
    var p := run[|run| - 1].pc[t];
    IsPush(p) ==> forall n :: Stamped(run, p.x.op, n) ==> HasPushTicket(p) && n == p.ticket
  }

  ghost predicate Ordered(c: Conf, run: seq<State>)
  {
    && |run| > 0 && Sized(c, run[|run| - 1]) && c.size > 0
    && var s := run[|run| - 1];
       && (forall t :: t in s.pc ==> LastTicket(c, s, t) && StampOnce(run, t))
       && (forall i :: 0 <= i < c.size ==> InTurn(c, run, i))
       && (forall op, n :: Stamped(run, op, n) ==> op in s.place)
  }

  lemma StampedOn(run: seq<State>, s': State, op: nat, n: nat)
    ensures Stamped(run + [s'], op, n) <==> Stamped(run, op, n) || StampIn(s', op, n)
  {
    var r := run + [s'];
    if Stamped(r, op, n) {
      var i :| 0 <= i < |r| && StampIn(r[i], op, n);
      if i < |run| { assert r[i] == run[i]; }
    }
    if Stamped(run, op, n) {
      var i :| 0 <= i < |run| && StampIn(run[i], op, n);
      assert StampIn(r[i], op, n);
    }
    if StampIn(s', op, n) { assert StampIn(r[|run|], op, n); }
  }

  /** A slot ticket counts one more at the next. */
  lemma TicketsNext(c: Conf, n: nat, i: nat)
    requires c.size > 0
    ensures Tickets(c, n + 1, i) == Tickets(c, n, i) + if Slot(c, n) == i then 1 else 0
  {
  }

  lemma {:induction false} TicketsMono(c: Conf, m: nat, n: nat, i: nat)
    requires c.size > 0 && m <= n
    ensures Tickets(c, m, i) <= Tickets(c, n, i)
  {
    if m < n { TicketsMono(c, m, n - 1, i); }
  }

  /** A ticket for the slot counts for those after it. */
  lemma Fewer(c: Conf, m: nat, n: nat, i: nat)
    requires c.size > 0 && m < n && Slot(c, m) == i
    ensures Tickets(c, m, i) < Tickets(c, n, i)
  {
    TicketsNext(c, m, i);
    TicketsMono(c, m + 1, n, i);
  }

  /** Two tickets for a slot with equally many before them are one. */
  lemma SameTicket(c: Conf, m: nat, n: nat, i: nat)
    requires c.size > 0 && Slot(c, m) == i && Slot(c, n) == i && Tickets(c, m, i) == Tickets(c, n, i)
    ensures m == n
  {
    if m < n { Fewer(c, m, n, i); }
    if n < m { Fewer(c, n, m, i); }
  }

  // --- Every step keeps the order ---

  /** A stamp in the new state was there before, or is the ticket that this step takes. */
  lemma NewStamp(c: Conf, s: State, s': State, t: Tid, a: Action, op: nat, n: nat)
    requires NextStep(c, s, s', t, a) && StampIn(s', op, n)
    ensures StampIn(s, op, n) || (t in s.pc && IsPush(s.pc[t]) && !HasPushTicket(s.pc[t]) && s.pc[t].x.op == op && n == s.head
                                  && t in s'.pc && s'.pc[t] == PushWait(s.pc[t].x, n))
  {
    hide Slot, Sound;
    var u :| u in s'.pc && Stamps(s'.pc[u], op, n);
    if u != t { assert u in s.pc && Stamps(s.pc[u], op, n); }
    else if t in s.pc && HasPushTicket(s.pc[t]) { assert Stamps(s.pc[t], op, n); }
  }

  lemma StampNow(run: seq<State>, t: Tid)
    requires |run| > 0 && t in run[|run| - 1].pc && HasPushTicket(run[|run| - 1].pc[t])
    ensures Stamped(run, run[|run| - 1].pc[t].x.op, run[|run| - 1].pc[t].ticket)
  {
    var s := run[|run| - 1];
    assert StampIn(s, s.pc[t].x.op, s.pc[t].ticket) by { assert Stamps(s.pc[t], s.pc[t].x.op, s.pc[t].ticket); }
  }

  /** The stamps of an item after a step. */
  lemma StampsAfter(c: Conf, run: seq<State>, s': State, t: Tid, a: Action, op: nat, n: nat)
    requires |run| > 0 && NextStep(c, run[|run| - 1], s', t, a) && Stamped(run + [s'], op, n)
    ensures var s := run[|run| - 1];
      Stamped(run, op, n) || (t in s.pc && IsPush(s.pc[t]) && !HasPushTicket(s.pc[t]) && s.pc[t].x.op == op && n == s.head
                              && t in s'.pc && s'.pc[t] == PushWait(s.pc[t].x, n))
  {
    hide NextStep, StampIn;
    StampedOn(run, s', op, n);
    if StampIn(s', op, n) {
      NewStamp(c, run[|run| - 1], s', t, a, op, n);
      if StampIn(run[|run| - 1], op, n) { assert Stamped(run, op, n); }
    }
  }

  /** Stamped items are known. */
  lemma PlacedAfter(c: Conf, run: seq<State>, s': State, t: Tid, a: Action, op: nat, n: nat)
    requires Ordered(c, run) && Inv(c, run[|run| - 1]) && NextStep(c, run[|run| - 1], s', t, a) && Stamped(run + [s'], op, n)
    ensures op in s'.place
  {
    hide Slot, Sound, InTurn, LastTicket, Stamped;
    StampsAfter(c, run, s', t, a, op, n);
    var s := run[|run| - 1];
    if t in s.pc { assert ThreadOk(c, s, t) && StampOnce(run, t); }
  }

  /** Two threads do not push the same item. */
  lemma PushesOwn(c: Conf, s: State, t: Tid, u: Tid)
    requires Inv(c, s) && t in s.pc && u in s.pc && IsPush(s.pc[t]) && IsPush(s.pc[u]) && s.pc[t].x.op == s.pc[u].x.op
    ensures t == u
  {
    hide Slot, Sound;
    assert ThreadOk(c, s, t) && ThreadOk(c, s, u);
  }

  lemma OnceAfter(c: Conf, run: seq<State>, s': State, t: Tid, a: Action, u: Tid)
    requires Ordered(c, run) && Inv(c, run[|run| - 1]) && Inv(c, s') && NextStep(c, run[|run| - 1], s', t, a) && u in s'.pc
    ensures StampOnce(run + [s'], u)
  {
    var s, p := run[|run| - 1], s'.pc[u];
    hide Slot, Sound, InTurn, LastTicket, Stamped, Inv;
    if IsPush(p) {
      forall n | Stamped(run + [s'], p.x.op, n) ensures HasPushTicket(p) && n == p.ticket {
        StampsAfter(c, run, s', t, a, p.x.op, n);
        if Stamped(run, p.x.op, n) {
          OnceOld(c, run, s', t, a, u, n);
        } else if u != t {
          PushesOwn(c, s', t, u);
        }
      }
    }
  }

  lemma OnceOld(c: Conf, run: seq<State>, s': State, t: Tid, a: Action, u: Tid, n: nat)
    requires Ordered(c, run) && Inv(c, run[|run| - 1]) && NextStep(c, run[|run| - 1], s', t, a) && u in s'.pc && IsPush(s'.pc[u])
    requires Stamped(run, s'.pc[u].x.op, n)
    ensures HasPushTicket(s'.pc[u]) && n == s'.pc[u].ticket
  {
    hide Slot, Sound, InTurn, LastTicket, Stamped;
    var s := run[|run| - 1];
    assert s'.pc[u].x.op in s.place;
    if u in s.pc { assert StampOnce(run, u); }
  }

  /** A thread keeps its ticket; the one that takes one takes head or tail, which moves on then and not otherwise. */
  lemma TicketsTaken(c: Conf, s: State, s': State, t: Tid, a: Action, u: Tid)
    requires NextStep(c, s, s', t, a) && u in s'.pc
    ensures s.head <= s'.head <= s.head + 1 && s.tail <= s'.tail <= s.tail + 1
    ensures s'.head > s.head ==> t in s'.pc && HasPushTicket(s'.pc[t]) && s'.pc[t].ticket == s.head
    ensures s'.tail > s.tail ==> t in s'.pc && HasPopTicket(s'.pc[t]) && s'.pc[t].ticket == s.tail
    ensures HasPushTicket(s'.pc[u]) ==>
      (u in s.pc && HasPushTicket(s.pc[u]) && s.pc[u].ticket == s'.pc[u].ticket && (u == t ==> s'.head == s.head))
      || (u == t && s'.pc[u].ticket == s.head && s'.head > s.head)
    ensures HasPopTicket(s'.pc[u]) ==>
      (u in s.pc && HasPopTicket(s.pc[u]) && s.pc[u].ticket == s'.pc[u].ticket && (u == t ==> s'.tail == s.tail))
      || (u == t && s'.pc[u].ticket == s.tail && s'.tail > s.tail)
  {
    hide Slot, Sound;
  }

  /** Threads with a ticket are recorded at its slot. */
  lemma RecordedAt(c: Conf, s: State, u: Tid)
    requires Inv(c, s) && u in s.pc
    ensures HasPushTicket(s.pc[u]) ==> Slot(c, s.pc[u].ticket) < |s.producers| && u in s.producers[Slot(c, s.pc[u].ticket)]
    ensures HasPopTicket(s.pc[u]) ==> Slot(c, s.pc[u].ticket) < |s.consumers| && u in s.consumers[Slot(c, s.pc[u].ticket)]
  {
    hide Slot, Sound;
    assert ThreadOk(c, s, u);
  }

  /** The tickets of the threads stay the last for their slots, if no second is given out. */
  lemma LastAfter(c: Conf, s: State, s': State, t: Tid, a: Action, u: Tid)
    requires Inv(c, s) && Inv(c, s') && c.size > 0 && NextStep(c, s, s', t, a) && SingleFile(s') && u in s'.pc
    requires Sized(c, s) && Sized(c, s') && forall v :: v in s.pc ==> LastTicket(c, s, v)
    ensures LastTicket(c, s', u)
  {
    hide Slot, Sound, Tickets, Inv, NextStep, SingleFile, Sized;
    TicketsTaken(c, s, s', t, a, u);
    RecordedAt(c, s', u);
    if t in s'.pc { RecordedAt(c, s', t); }
    if HasPushTicket(s'.pc[u]) || HasPopTicket(s'.pc[u]) {
      var i := Slot(c, s'.pc[u].ticket);
      TicketsNext(c, s.head, i);
      TicketsNext(c, s.tail, i);
      if u != t { OneEach(s', i, t, u); }
      if u in s.pc { assert LastTicket(c, s, u); }
    }
  }

  lemma OneEach(s: State, i: nat, t: Tid, u: Tid)
    requires SingleFile(s) && t != u
    ensures i < |s.producers| ==> !(t in s.producers[i] && u in s.producers[i])
    ensures i < |s.consumers| ==> !(t in s.consumers[i] && u in s.consumers[i])
  {
    if i < |s.producers| && t in s.producers[i] && u in s.producers[i] { TwoIn(s.producers[i], t, u); }
    if i < |s.consumers| && t in s.consumers[i] && u in s.consumers[i] { TwoIn(s.consumers[i], t, u); }
  }

  lemma TwoIn(ts: set<Tid>, t: Tid, u: Tid)
    requires t in ts && u in ts && t != u
    ensures |ts| >= 2
  {
    assert {t, u} <= ts;
    var rest := ts - {t};
    assert u in rest && |rest| == |ts| - 1;
  }

  /** The ticket of a stored item is the one whose turn it is. */
  lemma StoredInTurn(c: Conf, run: seq<State>, s': State, t: Tid, n: nat)
    requires Ordered(c, run) && Inv(c, run[|run| - 1]) && Counted(c, run[|run| - 1]) && SingleFile(run[|run| - 1])
    requires PushRelease(c, run[|run| - 1], s', t) && Sized(c, s') && Stamped(run, run[|run| - 1].pc[t].x.op, n)
    ensures var i := Slot(c, run[|run| - 1].pc[t].ticket); Slot(c, n) == i && i < c.size && Tickets(c, n, i) == TakenOut(c, s', i)
  {
    hide Slot, Sound, Stamped, Tickets, InTurn;
    var s := run[|run| - 1];
    var i := Slot(c, s.pc[t].ticket);
    assert ThreadOk(c, s, t) && StampOnce(run, t) && LastTicket(c, s, t) && CountedAt(c, s, i);
    assert s.producers[i] == {t} by { forall u | u in s.producers[i] ensures u == t { if u != t { TwoIn(s.producers[i], t, u); } } }
  }

  /** No step but these two puts an item into a slot or takes one out. */
  lemma TurnKept(c: Conf, s: State, s': State, t: Tid, a: Action, i: nat)
    requires Inv(c, s) && Inv(c, s') && c.size > 0 && NextStep(c, s, s', t, a) && i < c.size
    requires Sized(c, s) && Sized(c, s') && (s'.cells[i].state == Stored || s'.cells[i].state == Loading)
    requires !(a.DoPushRelease? && t in s.pc && HasPushTicket(s.pc[t]) && Slot(c, s.pc[t].ticket) == i)
    ensures (s.cells[i].state == Stored || s.cells[i].state == Loading) && s'.cells[i].elem == s.cells[i].elem
    ensures TakenOut(c, s', i) == TakenOut(c, s, i)
  {
    hide Slot, Sound, Inv, Tickets;
    CellKept(c, s, s', t, a, i);
    ConsumersKept(c, s, s', t, a, i);
    TicketsNext(c, s.tail, i);
  }

  lemma CellKept(c: Conf, s: State, s': State, t: Tid, a: Action, i: nat)
    requires Inv(c, s) && c.size > 0 && NextStep(c, s, s', t, a) && i < c.size
    requires Sized(c, s) && Sized(c, s') && (s'.cells[i].state == Stored || s'.cells[i].state == Loading)
    requires !(a.DoPushRelease? && t in s.pc && HasPushTicket(s.pc[t]) && Slot(c, s.pc[t].ticket) == i)
    ensures (s.cells[i].state == Stored || s.cells[i].state == Loading) && s'.cells[i].elem == s.cells[i].elem
  {
    hide Slot, Sound, PoppedOk, ItemOk, SlotOk;
    if t in s.pc { assert ThreadOk(c, s, t); }
  }

  /** A consumer joins a slot with its ticket, and leaves it when it has emptied the slot. */
  lemma ConsumersKept(c: Conf, s: State, s': State, t: Tid, a: Action, i: nat)
    requires Inv(c, s) && c.size > 0 && NextStep(c, s, s', t, a) && i < c.size
    requires Sized(c, s) && Sized(c, s') && (s'.cells[i].state == Stored || s'.cells[i].state == Loading)
    ensures if s'.tail > s.tail && Slot(c, s.tail) == i then |s'.consumers[i]| == |s.consumers[i]| + 1 else s'.consumers[i] == s.consumers[i]
    ensures s.tail <= s'.tail <= s.tail + 1
  {
    hide Slot, Sound, PoppedOk, ItemOk, ThreadOk;
    assert SlotOk(c, s, i);
    assert t in s.consumers[i] ==> t in s.pc && HasPopTicket(s.pc[t]);
  }

  lemma TurnAfter(c: Conf, run: seq<State>, s': State, t: Tid, a: Action, i: nat)
    requires Ordered(c, run) && Inv(c, run[|run| - 1]) && Counted(c, run[|run| - 1]) && SingleFile(run[|run| - 1])
    requires Inv(c, s') && NextStep(c, run[|run| - 1], s', t, a) && i < c.size
    ensures InTurn(c, run + [s'], i)
  {
    hide Slot, Sound, Stamped, Tickets, Counted, SingleFile, NextStep, Inv;
    var s := run[|run| - 1];
    SizesOf(c, s, s');
    if s'.cells[i].state == Stored || s'.cells[i].state == Loading {
      forall n | Stamped(run + [s'], s'.cells[i].elem.op, n) ensures Slot(c, n) == i && Tickets(c, n, i) == TakenOut(c, s', i) {
        StampsAfter(c, run, s', t, a, s'.cells[i].elem.op, n);
        if Stores(c, s, t, a, i) {
          Released(c, s, s', t, a, i);
          if !Stamped(run, s'.cells[i].elem.op, n) { assert false; }
          StoredInTurn(c, run, s', t, n);
        } else {
          TurnKept(c, s, s', t, a, i);
          if !Stamped(run, s'.cells[i].elem.op, n) { NotPushed(c, s, t, i); assert false; }
          assert InTurn(c, run, i);
        }
      }
    }
  }

  ghost predicate Stores(c: Conf, s: State, t: Tid, a: Action, i: nat)
    requires c.size > 0
  {
    a.DoPushRelease? && t in s.pc && HasPushTicket(s.pc[t]) && Slot(c, s.pc[t].ticket) == i
  }

  lemma SizesOf(c: Conf, s: State, s': State)
    requires Inv(c, s) && Inv(c, s')
    ensures Sized(c, s) && Sized(c, s')
  {
  }

  lemma Released(c: Conf, s: State, s': State, t: Tid, a: Action, i: nat)
    requires Inv(c, s) && NextStep(c, s, s', t, a) && c.size > 0 && Stores(c, s, t, a, i) && i < |s'.cells|
    ensures PushRelease(c, s, s', t) && s'.cells[i].elem == s.pc[t].x && t !in s'.pc
  {
    hide Slot, Sound;
    assert ThreadOk(c, s, t);
  }

  /** An item in a slot is with no producer. */
  lemma NotPushed(c: Conf, s: State, t: Tid, i: nat)
    requires Inv(c, s) && i < c.size && (s.cells[i].state == Stored || s.cells[i].state == Loading)
    ensures t in s.pc && IsPush(s.pc[t]) ==> s.pc[t].x.op != s.cells[i].elem.op
  {
    hide Slot, Sound;
    assert SlotOk(c, s, i);
    if t in s.pc { assert ThreadOk(c, s, t); }
  }

  /** The run, and in single file. */
  ghost predicate InFile(c: Conf, run: seq<State>, tryOnly: bool)
  {
    IsRun(c, run, tryOnly) && forall i :: 0 <= i < |run| ==> SingleFile(run[i])
  }

  lemma {:induction false} RunOrdered(c: Conf, run: seq<State>, tryOnly: bool)
    requires InFile(c, run, tryOnly) && c.size > 0
    ensures Ordered(c, run)
  {
    hide Inv, Counted, Bounded, SingleFile, NextStep, Sound, Slot;
    var m := |run| - 1;
    if m == 0 {
      FirstOrdered(c, run);
    } else {
      var before, s, s' := run[..m], run[m - 1], run[m];
      assert before + [s'] == run;
      RunOrdered(c, before, tryOnly);
      RunInv(c, before, tryOnly);
      assert Next(c, s, s', tryOnly);
      var t, a :| NextStep(c, s, s', t, a);
      StepKeeps(c, s, s', t, a);
      StepOrdered(c, before, s', t, a);
    }
  }

  lemma FirstOrdered(c: Conf, run: seq<State>)
    requires |run| == 1 && Sound(c) && Init(c, run[0]) && c.size > 0
    ensures Ordered(c, run)
  {
  }

  lemma StepOrdered(c: Conf, run: seq<State>, s': State, t: Tid, a: Action)
    requires Ordered(c, run) && Inv(c, run[|run| - 1]) && Counted(c, run[|run| - 1]) && SingleFile(run[|run| - 1])
    requires Inv(c, s') && SingleFile(s') && NextStep(c, run[|run| - 1], s', t, a)
    ensures Ordered(c, run + [s'])
  {
    hide Slot, Sound, Stamped, Counted, SingleFile, NextStep, Inv, LastTicket, StampOnce, InTurn;
    var s := run[|run| - 1];
    SizesOf(c, s, s');
    forall u | u in s'.pc ensures LastTicket(c, s', u) && StampOnce(run + [s'], u) {
      LastAfter(c, s, s', t, a, u);
      OnceAfter(c, run, s', t, a, u);
    }
    forall i | 0 <= i < c.size ensures InTurn(c, run + [s'], i) { TurnAfter(c, run, s', t, a, i); }
    forall op, n | Stamped(run + [s'], op, n) ensures op in s'.place { PlacedAfter(c, run, s', t, a, op, n); }
  }

  /** Every item in a slot has had a ticket. */
  ghost predicate AllStamped(c: Conf, run: seq<State>)
  {
    && |run| > 0 && Sized(c, run[|run| - 1])
    && var cells := run[|run| - 1].cells; forall i :: 0 <= i < |cells| ==> HasStamp(run, cells[i])
  }

  ghost predicate HasStamp(run: seq<State>, cell: Cell)
  {
    cell.state == Stored || cell.state == Loading ==> exists n :: Stamped(run, cell.elem.op, n)
  }

  lemma StampsLast(run: seq<State>, s': State, op: nat, n: nat)
    requires Stamped(run, op, n)
    ensures Stamped(run + [s'], op, n)
  {
    StampedOn(run, s', op, n);
  }

  lemma StampedAfter(c: Conf, run: seq<State>, s': State, t: Tid, a: Action, i: nat)
    requires AllStamped(c, run) && Inv(c, run[|run| - 1]) && Inv(c, s') && NextStep(c, run[|run| - 1], s', t, a) && i < |s'.cells|
    requires c.size > 0 && i < c.size
    ensures HasStamp(run + [s'], s'.cells[i])
  {
    hide Slot, Sound, Stamped, Tickets, NextStep, Inv;
    var s := run[|run| - 1];
    SizesOf(c, s, s');
    if s'.cells[i].state == Stored || s'.cells[i].state == Loading {
      var n;
      if Stores(c, s, t, a, i) {
        Released(c, s, s', t, a, i);
        n := s.pc[t].ticket;
        StampNow(run, t);
      } else {
        TurnKept(c, s, s', t, a, i);
        assert HasStamp(run, s.cells[i]);
        n :| Stamped(run, s.cells[i].elem.op, n);
      }
      StampsLast(run, s', s'.cells[i].elem.op, n);
    }
  }

  lemma {:induction false} RunStamped(c: Conf, run: seq<State>, tryOnly: bool)
    requires IsRun(c, run, tryOnly) && c.size > 0
    ensures AllStamped(c, run)
  {
    hide Inv, Counted, Bounded, NextStep, Sound, Slot, HasStamp;
    var m := |run| - 1;
    if m == 0 {
      FirstStamped(c, run);
    } else {
      var before, s, s' := run[..m], run[m - 1], run[m];
      assert before + [s'] == run;
      RunStamped(c, before, tryOnly);
      RunInv(c, before, tryOnly);
      assert Next(c, s, s', tryOnly);
      var t, a :| NextStep(c, s, s', t, a);
      StepKeeps(c, s, s', t, a);
      SizesOf(c, s, s');
      forall i | 0 <= i < c.size ensures HasStamp(run, s'.cells[i]) { StampedAfter(c, before, s', t, a, i); }
    }
  }

  lemma FirstStamped(c: Conf, run: seq<State>)
    requires |run| == 1 && Sound(c) && Init(c, run[0]) && c.size > 0
    ensures AllStamped(c, run)
  {
  }

  /** In single file the item that a pop takes out is the one that had the push ticket with the number of its pop ticket, and no other. */
  lemma FirstInFirstOut(c: Conf, run: seq<State>, tryOnly: bool, t: Tid, n: nat)
    requires InFile(c, run, tryOnly) && c.size > 0
    requires t in run[|run| - 1].pc && run[|run| - 1].pc[t].PopDone?
    ensures var p := run[|run| - 1].pc[t]; Stamped(run, p.x.op, n) <==> n == p.ticket
  {
    hide Slot, Sound, Stamped, Next, InFile;
    FileIs(c, run, tryOnly);
    RunInv(c, run, tryOnly);
    RunStamped(c, run, tryOnly);
    var p := run[|run| - 1].pc[t];
    assert ThreadOk(c, run[|run| - 1], t);
    assert HasStamp(run, run[|run| - 1].cells[Slot(c, p.ticket)]);
    var k :| Stamped(run, p.x.op, k);
    TicketOfItem(c, run, tryOnly, t, k);
    if Stamped(run, p.x.op, n) { TicketOfItem(c, run, tryOnly, t, n); }
  }

  lemma FileIs(c: Conf, run: seq<State>, tryOnly: bool)
    requires InFile(c, run, tryOnly)
    ensures IsRun(c, run, tryOnly) && forall i :: 0 <= i < |run| ==> SingleFile(run[i])
  {
  }

  lemma TicketOfItem(c: Conf, run: seq<State>, tryOnly: bool, t: Tid, n: nat)
    requires InFile(c, run, tryOnly) && c.size > 0
    requires var s := run[|run| - 1]; t in s.pc && s.pc[t].PopDone? && Stamped(run, s.pc[t].x.op, n)
    ensures n == run[|run| - 1].pc[t].ticket
  {
    hide Slot, Sound, Stamped, Tickets, Bounded, Next;
    RunInv(c, run, tryOnly);
    RunOrdered(c, run, tryOnly);
    var s := run[|run| - 1];
    var m := s.pc[t].ticket;
    var i := Slot(c, m);
    assert ThreadOk(c, s, t) && LastTicket(c, s, t) && InTurn(c, run, i);
    assert SingleFile(s);
    assert s.consumers[i] == {t} by { forall u | u in s.consumers[i] ensures u == t { if u != t { TwoIn(s.consumers[i], t, u); } } }
    SameTicket(c, m, n, i);
  }

  // ---------------------------------------------------------------------------------------
  // One call at a time, or half of one
  // ---------------------------------------------------------------------------------------

  /** The run goes on with a step of `try_push` or `try_pop`. */
  lemma Extend(c: Conf, run: seq<State>, s': State, t: Tid, a: Action)
    requires IsRun(c, run, true) && NextStep(c, run[|run| - 1], s', t, a) && !a.DoPushFetchAdd? && !a.DoPopFetchAdd?
    ensures IsRun(c, run + [s'], true)
  {
    hide NextStep, Sound, Init;
    var r := run + [s'];
    assert Next(c, run[|run| - 1], s', true);
    forall i | 0 <= i < |r| - 1 ensures Next(c, r[i], r[i + 1], true) {
      if i < |run| - 1 { assert r[i] == run[i] && r[i + 1] == run[i + 1]; }
    }
  }

  /** After `try_push` has taken its ticket. */
  ghost function PushBegun(c: Conf, s: State, t: Tid, op: nat, v: int): State
    requires Sized(c, s) && c.size > 0 && Slot(c, s.head) < c.size
  {
    var x, i := Item(op, v), Slot(c, s.head);
    s.(head := s.head + 1, pc := s.pc[t := PushWait(x, s.head)], producers := s.producers[i := s.producers[i] + {t}],
       place := s.place[op := Pushing(t)], value := s.value[op := v])
  }

  /** After it has stored its item. */
  ghost function PushEnded(c: Conf, s: State, t: Tid): State
    requires Sized(c, s) && c.size > 0 && t in s.pc && s.pc[t].PushWait? && Slot(c, s.pc[t].ticket) < c.size
  {
    var x, i := s.pc[t].x, Slot(c, s.pc[t].ticket);
    s.(cells := s.cells[i := Cell(Stored, x)], owner := s.owner[i := t], pc := s.pc - {t},
       place := s.place[x.op := InSlot(i)], producers := s.producers[i := s.producers[i] - {t}])
  }

  ghost function PopBegun(c: Conf, s: State, t: Tid): State
    requires Sized(c, s) && c.size > 0 && Slot(c, s.tail) < c.size
  {
    var i := Slot(c, s.tail);
    s.(tail := s.tail + 1, pc := s.pc[t := PopWait(s.tail)], consumers := s.consumers[i := s.consumers[i] + {t}])
  }

  ghost function PopEnded(c: Conf, s: State, t: Tid): State
    requires Sized(c, s) && c.size > 0 && t in s.pc && s.pc[t].PopWait? && Slot(c, s.pc[t].ticket) < c.size
  {
    var i := Slot(c, s.pc[t].ticket);
    var x := s.cells[i].elem;
    s.(cells := s.cells[i := Cell(Empty, x)], owner := s.owner[i := t], pc := s.pc - {t},
       place := s.place[x.op := Returned(|s.popped|)], popped := s.popped + [x], consumers := s.consumers[i := s.consumers[i] - {t}])
  }

  /** With room in the queue, `try_push` takes a ticket if nobody disturbs it. */
  lemma BeginsPush(c: Conf, run: seq<State>, t: Tid, op: nat, v: int) returns (r: seq<State>)
    requires IsRun(c, run, true) && c.size > 0
    requires var s := run[|run| - 1]; Sized(c, s) && t !in s.pc && op !in s.place && s.head - s.tail < c.size && Slot(c, s.head) < c.size
    ensures IsRun(c, r, true) && run < r && r[|r| - 1] == PushBegun(c, run[|run| - 1], t, op, v)
  {
    hide Slot, Sound, IsRun;
    RunNotEmpty(c, run);
    var s, x := run[|run| - 1], Item(op, v);
    var s1 := s.(pc := s.pc[t := PushHead(x)], place := s.place[op := Pushing(t)], value := s.value[op := v]);
    var s2 := s1.(pc := s1.pc[t := PushTail(x, s.head)]);
    var s3 := s2.(pc := s2.pc[t := PushCas(x, s.head, s.tail)]);
    var s4 := PushBegun(c, s, t, op, v);
    assert s1.pc[t := PushTail(x, s.head)] == s.pc[t := PushTail(x, s.head)];
    assert s3.pc[t := PushWait(x, s.head)] == s4.pc;
    Extend(c, run, s1, t, DoBeginPush(v, op));
    Extend(c, run + [s1], s2, t, DoPushReadHead);
    Extend(c, run + [s1] + [s2], s3, t, DoPushReadTail);
    Extend(c, run + [s1] + [s2] + [s3], s4, t, DoPushRaiseHead(true));
    r := run + [s1] + [s2] + [s3] + [s4];
  }

  lemma RunNotEmpty(c: Conf, run: seq<State>)
    requires IsRun(c, run, true)
    ensures |run| > 0
  {
  }

  /** At an empty slot a producer with a ticket ends its call. */
  lemma EndsPush(c: Conf, run: seq<State>, t: Tid) returns (r: seq<State>)
    requires IsRun(c, run, true) && c.size > 0
    requires var s := run[|run| - 1];
      && Sized(c, s) && t in s.pc && s.pc[t].PushWait? && Slot(c, s.pc[t].ticket) < c.size
      && s.cells[Slot(c, s.pc[t].ticket)].state == Empty
    ensures IsRun(c, r, true) && run < r && r[|r| - 1] == PushEnded(c, run[|run| - 1], t)
  {
    hide Slot, Sound, IsRun;
    RunNotEmpty(c, run);
    var s := run[|run| - 1];
    var x, n := s.pc[t].x, s.pc[t].ticket;
    var i := Slot(c, n);
    var s1 := s.(cells := s.cells[i := s.cells[i].(state := Storing)], owner := s.owner[i := t], pc := s.pc[t := PushStore(x, n)]);
    var s2 := s1.(cells := s1.cells[i := s1.cells[i].(elem := x)], pc := s1.pc[t := PushDone(x, n)]);
    var s3 := PushEnded(c, s, t);
    assert s2.cells[i := s2.cells[i].(state := Stored)] == s3.cells && s2.pc - {t} == s3.pc;
    Extend(c, run, s1, t, DoPushAcquire);
    Extend(c, run + [s1], s2, t, DoPushWrite);
    Extend(c, run + [s1] + [s2], s3, t, DoPushRelease);
    r := run + [s1] + [s2] + [s3];
  }

  /** In a queue that is not empty, `try_pop` takes a ticket if nobody disturbs it. */
  lemma BeginsPop(c: Conf, run: seq<State>, t: Tid) returns (r: seq<State>)
    requires IsRun(c, run, true) && c.size > 0
    requires var s := run[|run| - 1]; Sized(c, s) && t !in s.pc && s.tail < s.head && Slot(c, s.tail) < c.size
    ensures IsRun(c, r, true) && run < r && r[|r| - 1] == PopBegun(c, run[|run| - 1], t)
  {
    hide Slot, Sound, IsRun;
    RunNotEmpty(c, run);
    var s := run[|run| - 1];
    var s1 := s.(pc := s.pc[t := PopTail]);
    var s2 := s1.(pc := s1.pc[t := PopHead(s.tail)]);
    var s3 := s2.(pc := s2.pc[t := PopCas(s.tail, s.head)]);
    var s4 := PopBegun(c, s, t);
    assert s3.pc[t := PopWait(s.tail)] == s4.pc;
    Extend(c, run, s1, t, DoBeginPop);
    Extend(c, run + [s1], s2, t, DoPopReadTail);
    Extend(c, run + [s1] + [s2], s3, t, DoPopReadHead);
    Extend(c, run + [s1] + [s2] + [s3], s4, t, DoPopRaiseTail(true));
    r := run + [s1] + [s2] + [s3] + [s4];
  }

  /** At a full slot a consumer with a ticket ends its call. */
  lemma EndsPop(c: Conf, run: seq<State>, t: Tid) returns (r: seq<State>)
    requires IsRun(c, run, true) && c.size > 0
    requires var s := run[|run| - 1];
      && Sized(c, s) && t in s.pc && s.pc[t].PopWait? && Slot(c, s.pc[t].ticket) < c.size
      && s.cells[Slot(c, s.pc[t].ticket)].state == Stored
    ensures IsRun(c, r, true) && run < r && r[|r| - 1] == PopEnded(c, run[|run| - 1], t)
  {
    hide Slot, Sound, IsRun;
    RunNotEmpty(c, run);
    var s := run[|run| - 1];
    var n := s.pc[t].ticket;
    var i := Slot(c, n);
    var x := s.cells[i].elem;
    var s1 := s.(cells := s.cells[i := s.cells[i].(state := Loading)], owner := s.owner[i := t],
                 pc := s.pc[t := PopLoad(n)], place := s.place[x.op := Popping(t)]);
    var s2 := s1.(pc := s1.pc[t := PopDone(x, n)]);
    var s3 := PopEnded(c, s, t);
    assert s2.cells[i := s2.cells[i].(state := Empty)] == s3.cells && s2.pc - {t} == s3.pc;
    assert s2.place[x.op := Returned(|s.popped|)] == s3.place;
    Extend(c, run, s1, t, DoPopAcquire);
    Extend(c, run + [s1], s2, t, DoPopRead);
    Extend(c, run + [s1] + [s2], s3, t, DoPopRelease);
    r := run + [s1] + [s2] + [s3];
  }

  // ---------------------------------------------------------------------------------------
  // Out of file the order can break
  // ---------------------------------------------------------------------------------------

  const TWO: Conf := Conf(2, 0)

  function Blank(): State {
    var none := Cell(Empty, Item(0, 0));
    State(0, 0, [none, none], map[], map[], map[], [], [0, 0], [{}, {}], [{}, {}])
  }

  /** The slots of a queue of two, not shuffled. */
  lemma TwoSlots(n: nat)
    ensures Sound(TWO) && Slot(TWO, n) == n % 2
  {
  }

  /** Thread 0 has stalled with push ticket 0, and thread 1 has pushed item 1. */
  function AfterFirst(): State {
    State(2, 0, [Cell(Empty, Item(0, 0)), Cell(Stored, Item(1, 11))], map[0 := PushWait(Item(0, 10), 0)],
          map[0 := Pushing(0), 1 := InSlot(1)], map[0 := 10, 1 := 11], [], [0, 1], [{0}, {}], [{}, {}])
  }

  /** Then thread 2 has stalled with pop ticket 0, and thread 3 has pushed item 2. */
  function AfterSecond(): State {
    State(3, 1, [Cell(Stored, Item(2, 12)), Cell(Stored, Item(1, 11))], map[0 := PushWait(Item(0, 10), 0), 2 := PopWait(0)],
          map[0 := Pushing(0), 1 := InSlot(1), 2 := InSlot(0)], map[0 := 10, 1 := 11, 2 := 12], [], [3, 1], [{0}, {}], [{2}, {}])
  }

  lemma FirstPush() returns (r: seq<State>)
    ensures IsRun(TWO, r, true) && r != [] && r[|r| - 1] == AfterFirst()
  {
    hide IsRun, Sound, Slot, Next;
    FirstRun();
    TwoSlots(0);
    TwoSlots(1);
    r := BeginsPush(TWO, [Blank()], 0, 0, 10);
    r := BeginsPush(TWO, r, 1, 1, 11);
    r := EndsPush(TWO, r, 1);
    var s := r[|r| - 1];
    assert s.producers[0] == {0} && s.producers[1] == {};
  }

  lemma SecondPush(run: seq<State>) returns (r: seq<State>)
    requires IsRun(TWO, run, true) && run != [] && run[|run| - 1] == AfterFirst()
    ensures IsRun(TWO, r, true) && run < r && r[|r| - 1] == AfterSecond()
  {
    hide IsRun, Sound, Slot, Next;
    TwoSlots(0);
    TwoSlots(2);
    r := BeginsPop(TWO, run, 2);
    r := BeginsPush(TWO, r, 3, 2, 12);
    r := EndsPush(TWO, r, 3);
    var s := r[|r| - 1];
    assert s.producers[0] == {0} && s.consumers[0] == {2};
    assert s.pc == AfterSecond().pc && s.cells == AfterSecond().cells;
    assert s.place == AfterSecond().place && s.owner == AfterSecond().owner;
  }

  lemma BothPops(run: seq<State>) returns (r: seq<State>)
    requires IsRun(TWO, run, true) && run != [] && run[|run| - 1] == AfterSecond()
    ensures IsRun(TWO, r, true) && run < r && r[|r| - 1].popped == [Item(2, 12), Item(1, 11)]
  {
    hide IsRun, Sound, Slot, Next;
    TwoSlots(0);
    TwoSlots(1);
    r := EndsPop(TWO, run, 2);
    r := BeginsPop(TWO, r, 4);
    r := EndsPop(TWO, r, 4);
  }

  /**
   A queue of two slots. Thread 0 takes push ticket 0 and stalls. Thread 1 pushes item 1 and returns. Thread 2 takes pop
   ticket 0, whose slot is empty. Then thread 3 pushes item 2, with ticket 2, into that slot and returns, and thread 2
   returns item 2. A pop that begins after all this returns item 1: item 2 was pushed later and has been returned earlier.
   */
  lemma OrderBroken() returns (run: seq<State>, k: nat)
    ensures IsRun(TWO, run, true) && k < |run|
    ensures run[k].pc.Keys == {0} && 1 in run[k].place && run[k].place[1] == InSlot(1) && 2 !in run[k].place
    ensures run[|run| - 1].popped == [Item(2, 12), Item(1, 11)]
  {
    hide IsRun, Sound, Slot, Next;
    var r := FirstPush();
    k := |r| - 1;
    var r' := SecondPush(r);
    run := BothPops(r');
    assert run[k] == r'[k] == r[k];
  }

  lemma FirstRun()
    ensures IsRun(TWO, [Blank()], true)
  {
    TwoSlots(0);
  }
}
