/**
 The growable work-stealing deque: one owner pushes and pops at the bottom, any number of thieves
 steal at the top. Every access to `M_top`, `M_bottom`, `M_array` or an array cell is a step of its own,
 except that the owner's reads of what only it writes are joined to its next access.

 `deque`, `pushed` and `got` only record: `deque` is the atomic deque the queue simulates, `pushed` and
 `got` list what has been published and what `pop` and `steal` have returned.
 */
module StealingQueue {
  import opened Arith

  type Tid = nat
  type Item = int

  /** `S[i & M]` with a power-of-two capacity is the cell of index `i` modulo the capacity. */
  datatype Arr = Arr(cells: seq<Item>) {
    ghost predicate Valid() { |cells| > 0 }

    function Get(i: nat): Item
      requires |cells| > 0
    {
      cells[i % |cells|]
    }

    function Set(i: nat, x: Item): Arr
      requires |cells| > 0
    {
      Arr(cells[i % |cells| := x])
    }
  }

  datatype Maybe = None | Some(x: Item)

  datatype OwnerPC =
    | Idle
    | PushTop(x: Item)                 // about to read top
    | PushGrow(x: Item, t: nat)        // about to check for room
    | PushWrite(x: Item)               // about to write the cell at bottom
    | PushPublish(x: Item)             // about to raise bottom
    | PopTop                           // bottom lowered, about to read top
    | PopTake(due: Item)               // more than one item left: about to read the cell
    | PopTakeLast                      // exactly one item was left: about to read the cell
    | PopCas(x: Item)                  // about to race for it
    | PopRestore(res: Maybe)           // about to raise bottom again

  datatype ThiefPC =
    | StealBottom(t: nat)
    | StealArray(t: nat)
    | StealRead(t: nat, a: nat)
    | StealCas(t: nat, x: Item)

  datatype State = State(
    top: nat, bottom: nat, cur: nat, arrays: seq<Arr>,
    owner: OwnerPC, thieves: map<Tid, ThiefPC>,
    deque: seq<Item>, pushed: multiset<Item>, got: multiset<Item>)

  ghost predicate Init(s: State, cells: seq<Item>)
  {
    |cells| > 0 && s == State(0, 0, 0, [Arr(cells)], Idle, map[], [], multiset{}, multiset{})
  }

  // --- push ---

  ghost predicate BeginPush(s: State, s': State, x: Item)
  {
    s.owner == Idle && s' == s.(owner := PushTop(x))
  }

  ghost predicate PushReadTop(s: State, s': State)
  {
    s.owner.PushTop? && s' == s.(owner := PushGrow(s.owner.x, s.top))
  }

  /** `resize`: indices `t` to `b - 1` move to an array of twice the capacity. */
  ghost function Resize(a: Arr, b: Arr, t: nat, n: nat): Arr
    requires a.Valid() && b.Valid()
    ensures Resize(a, b, t, n).Valid() && |Resize(a, b, t, n).cells| == |b.cells|
  {
    if n == 0 then b else Resize(a, b, t, n - 1).Set(t + n - 1, a.Get(t + n - 1))
  }

  /** `blank` is whatever the fresh array holds before the copy. */
  ghost predicate PushMakeRoom(s: State, s': State, blank: Arr)
  {
    && s.owner.PushGrow? && s.cur < |s.arrays| && s.arrays[s.cur].Valid() && s.owner.t <= s.bottom
    && var a := s.arrays[s.cur];
       var n := s.bottom - s.owner.t;
       if |a.cells| - 1 < n
       then |blank.cells| == 2 * |a.cells|
            && s' == s.(arrays := s.arrays + [Resize(a, blank, s.owner.t, n)], cur := |s.arrays|,
                        owner := PushWrite(s.owner.x))
       else s' == s.(owner := PushWrite(s.owner.x))
  }

  ghost predicate PushWriteCell(s: State, s': State)
  {
    && s.owner.PushWrite? && s.cur < |s.arrays| && s.arrays[s.cur].Valid()
    && s' == s.(arrays := s.arrays[s.cur := s.arrays[s.cur].Set(s.bottom, s.owner.x)],
                owner := PushPublish(s.owner.x))
  }

  ghost predicate PushRaise(s: State, s': State)
  {
    && s.owner.PushPublish?
    && s' == s.(bottom := s.bottom + 1, owner := Idle,
                deque := s.deque + [s.owner.x], pushed := s.pushed + multiset{s.owner.x})
  }

  // --- pop; the source subtracts from an unsigned bottom, so some push must have come first ---

  ghost predicate BeginPop(s: State, s': State)
  {
    s.owner == Idle && s.bottom >= 1 && s' == s.(bottom := s.bottom - 1, owner := PopTop)
  }

  ghost predicate PopReadTop(s: State, s': State)
  {
    && s.owner == PopTop
    && if s.top < s.bottom
       then s.deque != [] && s' == s.(owner := PopTake(s.deque[|s.deque| - 1]), deque := s.deque[..|s.deque| - 1])
       else s' == s.(owner := if s.top == s.bottom then PopTakeLast else PopRestore(None))
  }

  ghost predicate PopReadCell(s: State, s': State)
  {
    && s.owner.PopTake? && s.cur < |s.arrays| && s.arrays[s.cur].Valid()
    && s' == s.(owner := Idle, got := s.got + multiset{s.arrays[s.cur].Get(s.bottom)})
  }

  ghost predicate PopReadLast(s: State, s': State)
  {
    && s.owner == PopTakeLast && s.cur < |s.arrays| && s.arrays[s.cur].Valid()
    && s' == s.(owner := PopCas(s.arrays[s.cur].Get(s.bottom)))
  }

  ghost predicate PopRace(s: State, s': State)
  {
    && s.owner.PopCas?
    && if s.top == s.bottom
       then s.deque != [] && s' == s.(top := s.top + 1, owner := PopRestore(Some(s.owner.x)), deque := s.deque[1..])
       else s' == s.(owner := PopRestore(None))
  }

  ghost predicate PopRaise(s: State, s': State)
  {
    && s.owner.PopRestore?
    && s' == s.(bottom := s.bottom + 1, owner := Idle,
                got := if s.owner.res.Some? then s.got + multiset{s.owner.res.x} else s.got)
  }

  // --- steal ---

  ghost predicate StealReadTop(s: State, s': State, u: Tid)
  {
    u !in s.thieves && s' == s.(thieves := s.thieves[u := StealBottom(s.top)])
  }

  ghost predicate StealReadBottom(s: State, s': State, u: Tid)
  {
    && u in s.thieves && s.thieves[u].StealBottom?
    && var t := s.thieves[u].t;
       s' == s.(thieves := if t < s.bottom then s.thieves[u := StealArray(t)] else s.thieves - {u})
  }

  ghost predicate StealReadArray(s: State, s': State, u: Tid)
  {
    && u in s.thieves && s.thieves[u].StealArray?
    && s' == s.(thieves := s.thieves[u := StealRead(s.thieves[u].t, s.cur)])
  }

  ghost predicate StealReadCell(s: State, s': State, u: Tid)
  {
    && u in s.thieves && s.thieves[u].StealRead?
    && var t, a := s.thieves[u].t, s.thieves[u].a;
       a < |s.arrays| && s.arrays[a].Valid()
       && s' == s.(thieves := s.thieves[u := StealCas(t, s.arrays[a].Get(t))])
  }

  ghost predicate StealRace(s: State, s': State, u: Tid)
  {
    && u in s.thieves && s.thieves[u].StealCas?
    && var t, x := s.thieves[u].t, s.thieves[u].x;
       if s.top == t
       then s.deque != [] && s' == s.(top := t + 1, thieves := s.thieves - {u}, deque := s.deque[1..],
                                      got := s.got + multiset{x})
       else s' == s.(thieves := s.thieves - {u})
  }

  datatype Step =
    | BeginPushStep(x: Item) | PushReadTopStep | PushMakeRoomStep(blank: Arr) | PushWriteStep | PushRaiseStep
    | BeginPopStep | PopReadTopStep | PopReadCellStep | PopReadLastStep | PopRaceStep | PopRaiseStep
    | StealTopStep(u: Tid) | StealBottomStep(u: Tid) | StealArrayStep(u: Tid) | StealCellStep(u: Tid) | StealRaceStep(u: Tid)

  ghost predicate NextStep(s: State, s': State, step: Step)
  {
    match step
    case BeginPushStep(x) => BeginPush(s, s', x)
    case PushReadTopStep => PushReadTop(s, s')
    case PushMakeRoomStep(blank) => PushMakeRoom(s, s', blank)
    case PushWriteStep => PushWriteCell(s, s')
    case PushRaiseStep => PushRaise(s, s')
    case BeginPopStep => BeginPop(s, s')
    case PopReadTopStep => PopReadTop(s, s')
    case PopReadCellStep => PopReadCell(s, s')
    case PopReadLastStep => PopReadLast(s, s')
    case PopRaceStep => PopRace(s, s')
    case PopRaiseStep => PopRaise(s, s')
    case StealTopStep(u) => StealReadTop(s, s', u)
    case StealBottomStep(u) => StealReadBottom(s, s', u)
    case StealArrayStep(u) => StealReadArray(s, s', u)
    case StealCellStep(u) => StealReadCell(s, s', u)
    case StealRaceStep(u) => StealRace(s, s', u)
  }

  ghost predicate Next(s: State, s': State) { exists step :: NextStep(s, s', step) }

  ghost predicate IsRun(run: seq<State>, cells: seq<Item>)
  {
    && |run| > 0 && Init(run[0], cells)
    && forall i :: 0 <= i < |run| - 1 ==> Next(run[i], run[i + 1])
  }

  // ---------------------------------------------------------------------------------------
  // Cells of different indices
  // ---------------------------------------------------------------------------------------

  lemma SetGet(a: Arr, i: nat, j: nat, x: Item)
    requires a.Valid() && (i == j || i < j < i + |a.cells| || j < i < j + |a.cells|)
    ensures a.Set(i, x).Get(j) == if i == j then x else a.Get(j)
  {
    if i < j { ModDistinct(i, j, |a.cells|); }
    if j < i { ModDistinct(j, i, |a.cells|); }
  }

  lemma {:induction false} ResizeGet(a: Arr, b: Arr, t: nat, n: nat, i: nat)
    requires a.Valid() && b.Valid() && n <= |b.cells| && t <= i < t + n
    ensures Resize(a, b, t, n).Get(i) == a.Get(i)
  {
    var r := Resize(a, b, t, n - 1);
    SetGet(r, t + n - 1, i, a.Get(t + n - 1));
    if i < t + n - 1 { ResizeGet(a, b, t, n - 1, i); }
  }

  // ---------------------------------------------------------------------------------------
  // Invariant
  // ---------------------------------------------------------------------------------------

  /** While the owner races for the last item, the queue still reaches one past `bottom`. */
  ghost predicate Lowered(o: OwnerPC) { o.PopTop? || o.PopTakeLast? || o.PopCas? || o.PopRestore? }

  ghost function End(s: State): nat { if Lowered(s.owner) then s.bottom + 1 else s.bottom }

  ghost predicate ArraysOk(s: State)
  {
    s.cur < |s.arrays| && forall a :: 0 <= a < |s.arrays| ==> s.arrays[a].Valid()
  }

  /** The current array holds the deque, at the logical indices from `top` to `End`. */
  ghost predicate Holds(s: State)
    requires ArraysOk(s)
  {
    var a := s.arrays[s.cur];
    && s.top <= End(s) <= s.top + |a.cells|
    && |s.deque| == End(s) - s.top
    && forall i :: s.top <= i < End(s) ==> a.Get(i) == s.deque[i - s.top]
  }

  ghost predicate OwnerOk(s: State)
    requires ArraysOk(s)
  {
    var a := s.arrays[s.cur];
    match s.owner
    case PushGrow(_, t) => t <= s.top && s.bottom <= t + |a.cells|
    case PushWrite(_) => s.bottom < s.top + |a.cells|
    case PushPublish(x) => s.bottom < s.top + |a.cells| && a.Get(s.bottom) == x
    case PopTake(due) => a.Get(s.bottom) == due
    case PopTakeLast => s.bottom <= s.top
    case PopCas(x) => s.bottom <= s.top && (s.top == s.bottom ==> s.deque == [x])
    case PopRestore(_) => s.top == s.bottom + 1
    case _ => true
  }

  /** A thief whose `top` is still current holds the first item, or will read it. */
  ghost predicate ThiefOk(s: State, pc: ThiefPC)
    requires ArraysOk(s)
  {
    && pc.t <= s.top
    && (pc.StealRead? ==> pc.a < |s.arrays|)
    && (pc.t == s.top && !pc.StealBottom? ==>
          && s.deque != []
          && (pc.StealRead? ==> s.arrays[pc.a].Get(pc.t) == s.deque[0])
          && (pc.StealCas? ==> pc.x == s.deque[0]))
  }

  ghost predicate ThievesOk(s: State)
    requires ArraysOk(s)
  {
    forall u :: u in s.thieves ==> ThiefOk(s, s.thieves[u])
  }

  ghost predicate Inv(s: State) { ArraysOk(s) && Holds(s) && OwnerOk(s) && ThievesOk(s) }

  // ---------------------------------------------------------------------------------------
  // The atomic deque
  // ---------------------------------------------------------------------------------------

  datatype Label = Silent | Push(x: Item) | Pop(x: Item) | PopEmpty | Steal(x: Item)

  /** What one step of an atomic deque does. */
  ghost predicate DequeStep(d: seq<Item>, d': seq<Item>, l: Label)
  {
    match l
    case Silent => d' == d
    case Push(x) => d' == d + [x]
    case Pop(x) => d == d' + [x]
    case PopEmpty => d == [] && d' == []
    case Steal(x) => d == [x] + d'
  }

  /** Where in the code each operation takes effect, and with which item. */
  ghost function LabelOf(s: State, step: Step): Label
  {
    match step
    case PushRaiseStep => if s.owner.PushPublish? then Push(s.owner.x) else Silent
    case PopReadTopStep => if s.top < s.bottom && s.deque != [] then Pop(s.deque[|s.deque| - 1])
                           else if s.top > s.bottom then PopEmpty else Silent
    case PopRaceStep => if !s.owner.PopCas? then Silent else if s.top == s.bottom then Pop(s.owner.x) else PopEmpty
    case StealRaceStep(u) =>
      if u in s.thieves && s.thieves[u].StealCas? && s.top == s.thieves[u].t then Steal(s.thieves[u].x) else Silent
    case _ => Silent
  }

  // --- owner steps ---

  lemma PushKeeps(s: State, s': State, step: Step)
    requires Inv(s) && NextStep(s, s', step)
    requires step.BeginPushStep? || step.PushReadTopStep? || step.PushRaiseStep?
    ensures Inv(s')
  {
  }

  lemma PushRoomKeeps(s: State, s': State, blank: Arr)
    requires Inv(s) && PushMakeRoom(s, s', blank)
    ensures Inv(s')
  {
    var a, n := s.arrays[s.cur], s.bottom - s.owner.t;
    if |a.cells| - 1 < n {
      var r := Resize(a, blank, s.owner.t, n);
      forall i | s.top <= i < s.bottom ensures r.Get(i) == a.Get(i) { ResizeGet(a, blank, s.owner.t, n, i); }
      assert forall b :: 0 <= b < |s.arrays| ==> s'.arrays[b] == s.arrays[b];
    }
  }

  lemma PushWriteKeeps(s: State, s': State)
    requires Inv(s) && PushWriteCell(s, s')
    ensures Inv(s')
  {
    var a, a' := s.arrays[s.cur], s'.arrays[s.cur];
    forall i | s.top <= i <= s.bottom
      ensures a'.Get(i) == if i == s.bottom then s.owner.x else a.Get(i)
    {
      SetGet(a, s.bottom, i, s.owner.x);
    }
    forall u | u in s'.thieves ensures ThiefOk(s', s'.thieves[u]) {
      assert ThiefOk(s, s.thieves[u]);
    }
  }

  lemma PopKeeps(s: State, s': State, step: Step)
    requires Inv(s) && NextStep(s, s', step)
    requires step.BeginPopStep? || step.PopReadCellStep? || step.PopReadLastStep? || step.PopRaiseStep?
    ensures Inv(s')
  {
  }

  lemma PopTopKeeps(s: State, s': State)
    requires Inv(s) && PopReadTop(s, s')
    ensures Inv(s')
  {
    forall u | u in s'.thieves ensures ThiefOk(s', s'.thieves[u]) {
      assert ThiefOk(s, s.thieves[u]);
    }
  }

  lemma PopRaceKeeps(s: State, s': State)
    requires Inv(s) && PopRace(s, s')
    ensures Inv(s')
  {
    forall u | u in s'.thieves ensures ThiefOk(s', s'.thieves[u]) {
      assert ThiefOk(s, s.thieves[u]);
    }
  }

  // --- thief steps ---

  lemma StealKeeps(s: State, s': State, step: Step)
    requires Inv(s) && NextStep(s, s', step)
    requires step.StealTopStep? || step.StealBottomStep? || step.StealArrayStep? || step.StealCellStep?
    ensures Inv(s')
  {
    forall u | u in s'.thieves ensures ThiefOk(s', s'.thieves[u]) {
      if u != step.u { assert ThiefOk(s, s.thieves[u]); }
    }
  }

  lemma StealRaceKeeps(s: State, s': State, u: Tid)
    requires Inv(s) && StealRace(s, s', u)
    ensures Inv(s')
  {
    forall v | v in s'.thieves ensures ThiefOk(s', s'.thieves[v]) {
      assert ThiefOk(s, s.thieves[v]);
    }
  }

  lemma StepKeeps(s: State, s': State, step: Step)
    requires Inv(s) && NextStep(s, s', step)
    ensures Inv(s')
  {
    match step
    case PushMakeRoomStep(blank) => PushRoomKeeps(s, s', blank);
    case PushWriteStep => PushWriteKeeps(s, s');
    case PopReadTopStep => PopTopKeeps(s, s');
    case PopRaceStep => PopRaceKeeps(s, s');
    case StealRaceStep(u) => StealRaceKeeps(s, s', u);
    case _ =>
      if step.BeginPushStep? || step.PushReadTopStep? || step.PushRaiseStep? { PushKeeps(s, s', step); }
      else if step.StealTopStep? || step.StealBottomStep? || step.StealArrayStep? || step.StealCellStep? { StealKeeps(s, s', step); }
      else { PopKeeps(s, s', step); }
  }

  lemma {:induction false} RunInv(run: seq<State>, cells: seq<Item>)
    requires IsRun(run, cells)
    ensures Inv(run[|run| - 1]) && Conserved(run[|run| - 1])
  {
    var m := |run| - 1;
    if m > 0 {
      RunInv(run[..m], cells);
      assert Next(run[m - 1], run[m]);
      var step :| NextStep(run[m - 1], run[m], step);
      StepKeeps(run[m - 1], run[m], step);
      StepConserves(run[m - 1], run[m], step);
    }
  }

  // ---------------------------------------------------------------------------------------
  // The theorems
  // ---------------------------------------------------------------------------------------

  /** The item a pop has taken off the deque but not yet returned. */
  ghost function InFlight(o: OwnerPC): multiset<Item>
  {
    match o
    case PopTake(due) => multiset{due}
    case PopRestore(Some(x)) => multiset{x}
    case _ => multiset{}
  }

  /** Whatever was pushed has been returned once, is about to be, or is still in the deque. */
  ghost predicate Conserved(s: State)
  {
    forall x :: s.pushed[x] == s.got[x] + InFlight(s.owner)[x] + multiset(s.deque)[x]
  }

  lemma StepConserves(s: State, s': State, step: Step)
    requires Inv(s) && Conserved(s) && NextStep(s, s', step)
    ensures Conserved(s')
  {
    match step
    case PushRaiseStep => PushRaiseConserves(s, s');
    case PopReadTopStep => PopTopConserves(s, s');
    case PopReadCellStep => PopReadConserves(s, s');
    case PopRaceStep => PopRaceConserves(s, s');
    case PopRaiseStep => PopRaiseConserves(s, s');
    case StealRaceStep(u) => StealConserves(s, s', u);
    case _ => OtherStepsTakeNothing(s, s', step);
  }

  lemma OtherStepsTakeNothing(s: State, s': State, step: Step)
    requires NextStep(s, s', step)
    requires !step.PushRaiseStep? && !step.PopReadTopStep? && !step.PopReadCellStep? && !step.PopRaceStep?
    requires !step.PopRaiseStep? && !step.StealRaceStep?
    ensures s'.deque == s.deque && s'.got == s.got && s'.pushed == s.pushed && InFlight(s'.owner) == InFlight(s.owner)
  {
  }

  lemma PushRaiseConserves(s: State, s': State)
    requires Conserved(s) && PushRaise(s, s')
    ensures Conserved(s')
  {
  }

  lemma PopReadConserves(s: State, s': State)
    requires Inv(s) && Conserved(s) && PopReadCell(s, s')
    ensures Conserved(s')
  {
  }

  lemma PopRaiseConserves(s: State, s': State)
    requires Conserved(s) && PopRaise(s, s')
    ensures Conserved(s')
  {
  }

  lemma PopTopConserves(s: State, s': State)
    requires Inv(s) && Conserved(s) && PopReadTop(s, s')
    ensures Conserved(s')
  {
    hide Inv;
    if s.top < s.bottom { assert s.deque == s.deque[..|s.deque| - 1] + [s.deque[|s.deque| - 1]]; }
  }

  lemma PopRaceConserves(s: State, s': State)
    requires Inv(s) && Conserved(s) && PopRace(s, s')
    ensures Conserved(s')
  {
    if s.top == s.bottom { assert s.deque == [s.owner.x] + s.deque[1..]; }
  }

  lemma StealConserves(s: State, s': State, u: Tid)
    requires Inv(s) && Conserved(s) && StealRace(s, s', u)
    ensures Conserved(s')
  {
    assert ThiefOk(s, s.thieves[u]);
    if s.top == s.thieves[u].t { assert s.deque == [s.deque[0]] + s.deque[1..]; }
  }

  /**
   Each step of the queue is at most one step of an atomic deque: a successful steal takes its first
   item, a successful pop its last, a pop comes back empty only if the deque was empty; and the item
   that leaves the deque is the one read from the array cell.
   */
  lemma StepSimulates(s: State, s': State, step: Step)
    requires Inv(s) && NextStep(s, s', step)
    ensures DequeStep(s.deque, s'.deque, LabelOf(s, step))
    ensures step.PopReadCellStep? ==> s'.got == s.got + multiset{s.owner.due}
    ensures step.StealRaceStep? && LabelOf(s, step).Steal? ==> s'.got == s.got + multiset{LabelOf(s, step).x}
  {
    match step
    case StealRaceStep(u) =>
      assert ThiefOk(s, s.thieves[u]);
      if s.top == s.thieves[u].t { assert s.deque == [s.deque[0]] + s.deque[1..]; }
    case PopReadTopStep =>
      if s.top < s.bottom { assert s.deque == s.deque[..|s.deque| - 1] + [s.deque[|s.deque| - 1]]; }
    case _ =>
  }

  /**
   What a label says about the items published and returned. An item is returned by a steal or by the pop that had it in
   flight; a pop that has taken one keeps it in flight until it returns it.
   */
  ghost predicate Answers(s: State, s': State, l: Label)
  {
    var before, after := InFlight(s.owner), InFlight(s'.owner);
    && s'.pushed == s.pushed + (if l.Push? then multiset{l.x} else multiset{})
    && (l.Pop? ==> before == multiset{} && after == multiset{l.x})
    && (!l.Pop? ==> after == before || after == multiset{})
    && s'.got == s.got + (if l.Steal? then multiset{l.x} else if after == multiset{} then before else multiset{})
    && (l.Steal? ==> after == before)
  }

  lemma StepAnswers(s: State, s': State, step: Step)
    requires Inv(s) && NextStep(s, s', step)
    ensures Answers(s, s', LabelOf(s, step))
  {
    hide Inv, DequeStep, Answers, InFlight;
    StepSimulates(s, s', step);
    match step
    case PushRaiseStep => PushRaiseAnswers(s, s');
    case PopReadTopStep => PopTopAnswers(s, s');
    case PopReadCellStep => PopReadAnswers(s, s');
    case PopRaceStep => PopRaceAnswers(s, s');
    case PopRaiseStep => PopRaiseAnswers(s, s');
    case StealRaceStep(u) => StealAnswers(s, s', u);
    case _ => OtherStepsTakeNothing(s, s', step); NothingAnswered(s, s');
  }

  lemma NothingAnswered(s: State, s': State)
    requires s'.got == s.got && s'.pushed == s.pushed && InFlight(s'.owner) == InFlight(s.owner)
    ensures Answers(s, s', Silent) && Answers(s, s', PopEmpty)
  {
  }

  lemma PushRaiseAnswers(s: State, s': State)
    requires PushRaise(s, s')
    ensures Answers(s, s', LabelOf(s, PushRaiseStep))
  {
  }

  lemma PopTopAnswers(s: State, s': State)
    requires PopReadTop(s, s')
    ensures Answers(s, s', LabelOf(s, PopReadTopStep))
  {
  }

  lemma PopReadAnswers(s: State, s': State)
    requires PopReadCell(s, s') && s'.got == s.got + multiset{s.owner.due}
    ensures Answers(s, s', LabelOf(s, PopReadCellStep))
  {
  }

  lemma PopRaceAnswers(s: State, s': State)
    requires PopRace(s, s')
    ensures Answers(s, s', LabelOf(s, PopRaceStep))
  {
    hide Answers;
    NothingReturned(s, s', LabelOf(s, PopRaceStep));
  }

  lemma NothingReturned(s: State, s': State, l: Label)
    requires s'.got == s.got && s'.pushed == s.pushed && !l.Push? && !l.Steal? && InFlight(s.owner) == multiset{}
    requires if l.Pop? then InFlight(s'.owner) == multiset{l.x} else InFlight(s'.owner) == multiset{}
    ensures Answers(s, s', l)
  {
  }

  lemma PopRaiseAnswers(s: State, s': State)
    requires PopRaise(s, s')
    ensures Answers(s, s', LabelOf(s, PopRaiseStep))
  {
  }

  lemma StealAnswers(s: State, s': State, u: Tid)
    requires StealRace(s, s', u)
    ensures Answers(s, s', LabelOf(s, StealRaceStep(u)))
  {
  }

  /** What the owner's call is about, and with which answer once it has taken effect. */
  datatype Phase = Free | Pushing(x: Item) | Popping | Popped(res: Maybe)

  function PhaseOf(o: OwnerPC): Phase {
    match o
    case Idle => Free
    case PushTop(x) => Pushing(x)
    case PushGrow(x, _) => Pushing(x)
    case PushWrite(x) => Pushing(x)
    case PushPublish(x) => Pushing(x)
    case PopTop => Popping
    case PopTakeLast => Popping
    case PopCas(_) => Popping
    case PopTake(due) => Popped(Some(due))
    case PopRestore(res) => Popped(res)
  }

  predicate ByOwner(l: Label) { l.Push? || l.Pop? || l.PopEmpty? }

  /**
   Each call of the owner takes effect exactly once: a push by a label with its item; a pop by a label with the item it
   will return, or as a pop of the empty deque if it will return nothing.
   */
  ghost predicate OwnerActs(p: Phase, p': Phase, l: Label)
  {
    match p
    case Free => !ByOwner(l) && !p'.Popped?
    case Pushing(x) => (p' == p && !ByOwner(l)) || (p' == Free && l == Push(x))
    case Popping => (p' == p && !ByOwner(l)) || (p'.Popped? && l == if p'.res.Some? then Pop(p'.res.x) else PopEmpty)
    case Popped(_) => !ByOwner(l) && (p' == p || p' == Free)
  }

  /**
   A thief that leaves has stolen, or has seen nothing to steal: no item, or one for which the owner is racing; or its
   item was taken since it read top.
   */
  ghost predicate ThiefActs(s: State, s': State, l: Label, u: Tid)
  {
    u in s.thieves && u !in s'.thieves ==>
      || (l.Steal? && s.thieves[u] == StealCas(s.top, l.x))
      || (!l.Steal? && s.thieves[u].StealBottom? && (s.deque == [] || (Lowered(s.owner) && |s.deque| == 1)))
      || (!l.Steal? && s.thieves[u].StealCas? && s.top > s.thieves[u].t)
  }

  /** And a steal is by a thief that leaves with the item. */
  ghost predicate StealsOnce(s: State, s': State, l: Label)
  {
    l.Steal? ==> exists u :: u in s.thieves && s.thieves[u] == StealCas(s.top, l.x) && s'.thieves == s.thieves - {u} && s'.top == s.top + 1
  }

  lemma StepOwner(s: State, s': State, step: Step)
    requires Inv(s) && NextStep(s, s', step)
    ensures OwnerActs(PhaseOf(s.owner), PhaseOf(s'.owner), LabelOf(s, step))
  {
  }

  lemma StepThief(s: State, s': State, step: Step, u: Tid)
    requires Inv(s) && NextStep(s, s', step)
    ensures ThiefActs(s, s', LabelOf(s, step), u)
  {
    if u in s.thieves && u !in s'.thieves {
      assert ThiefOk(s, s.thieves[u]);
      ThiefLeaves(s, s', step, u);
    }
  }

  lemma ThiefLeaves(s: State, s': State, step: Step, u: Tid)
    requires NextStep(s, s', step) && u in s.thieves && u !in s'.thieves
    ensures (step == StealBottomStep(u) && StealReadBottom(s, s', u)) || (step == StealRaceStep(u) && StealRace(s, s', u))
  {
  }

  lemma StepStealsOnce(s: State, s': State, step: Step)
    requires NextStep(s, s', step)
    ensures StealsOnce(s, s', LabelOf(s, step))
  {
    match step
    case StealRaceStep(u) => assert u in s.thieves;
    case _ =>
  }

  /** What the labels of a run say about the items and about the calls of the owner and the thieves. */
  ghost predicate Explained(s: State, s': State, l: Label)
  {
    && DequeStep(s.deque, s'.deque, l) && Answers(s, s', l) && OwnerActs(PhaseOf(s.owner), PhaseOf(s'.owner), l)
    && (forall u :: ThiefActs(s, s', l, u)) && StealsOnce(s, s', l)
  }

  lemma StepExplained(s: State, s': State, step: Step)
    requires Inv(s) && NextStep(s, s', step)
    ensures Explained(s, s', LabelOf(s, step))
  {
    hide Inv, NextStep, DequeStep, Answers, OwnerActs, ThiefActs, StealsOnce;
    StepSimulates(s, s', step);
    StepAnswers(s, s', step);
    StepOwner(s, s', step);
    StepStealsOnce(s, s', step);
    forall u ensures ThiefActs(s, s', LabelOf(s, step), u) { StepThief(s, s', step, u); }
  }

  /** Every run of the queue is a run of an atomic deque, in which each call takes effect once, with the answer it gives. */
  lemma {:induction false} Linearizable(run: seq<State>, cells: seq<Item>) returns (ls: seq<Label>)
    requires IsRun(run, cells)
    ensures |ls| == |run| - 1
    ensures forall i :: 0 <= i < |ls| ==> Explained(run[i], run[i + 1], ls[i])
  {
    hide Explained, NextStep, Inv;
    var m := |run| - 1;
    ls := [];
    if m > 0 {
      var ls0 := Linearizable(run[..m], cells);
      RunInv(run[..m], cells);
      var s, s' := run[m - 1], run[m];
      assert Next(s, s');
      var step :| NextStep(s, s', step);
      StepExplained(s, s', step);
      ls := ls0 + [LabelOf(s, step)];
      forall i | 0 <= i < |ls| ensures Explained(run[i], run[i + 1], ls[i]) {
        if i < m - 1 { assert run[..m][i] == run[i] && run[..m][i + 1] == run[i + 1] && ls[i] == ls0[i]; }
      }
    }
  }

  /** No item is returned twice and none is lost, in any run with any number of thieves. */
  lemma NothingLostOrDoubled(run: seq<State>, cells: seq<Item>)
    requires IsRun(run, cells)
    ensures Conserved(run[|run| - 1])
  {
    RunInv(run, cells);
  }

  /** The steps of a reachable state are never stuck on a missing array or a missing item. */
  lemma NeverStuck(run: seq<State>, cells: seq<Item>)
    requires IsRun(run, cells)
    ensures var s := run[|run| - 1];
            && (s.owner.PopTop? && s.top < s.bottom ==> s.deque != [])
            && (s.owner.PopCas? && s.top == s.bottom ==> s.deque == [s.owner.x])
            && (s.owner.PushGrow? ==> s.owner.t <= s.bottom)
            && (forall u :: u in s.thieves && s.thieves[u].StealRead? ==> s.thieves[u].a < |s.arrays|)
            && (forall u :: u in s.thieves && s.thieves[u].StealCas? && s.thieves[u].t == s.top ==>
                  s.deque != [] && s.deque[0] == s.thieves[u].x)
  {
    RunInv(run, cells);
    var s := run[|run| - 1];
    forall u | u in s.thieves ensures ThiefOk(s, s.thieves[u]) { }
  }

  // ---------------------------------------------------------------------------------------
  // Calls come to an end
  // ---------------------------------------------------------------------------------------

  function OwnerRank(o: OwnerPC): nat {
    match o
    case Idle => 0
    case PushTop(_) => 4
    case PushGrow(_, _) => 3
    case PushWrite(_) => 2
    case PushPublish(_) => 1
    case PopTop => 4
    case PopTakeLast => 3
    case PopCas(_) => 2
    case PopTake(_) => 1
    case PopRestore(_) => 1
  }

  function ThiefRank(p: ThiefPC): nat {
    match p
    case StealBottom(_) => 4
    case StealArray(_) => 3
    case StealRead(_, _) => 2
    case StealCas(_, _) => 1
  }

  predicate OfThief(step: Step) {
    step.StealTopStep? || step.StealBottomStep? || step.StealArrayStep? || step.StealCellStep? || step.StealRaceStep?
  }

  /** A call of the owner ends within four further accesses, whatever the thieves do, and so does a steal. */
  lemma WaitFree(s: State, s': State, step: Step)
    requires NextStep(s, s', step)
    ensures !OfThief(step) && s.owner != Idle ==> OwnerRank(s'.owner) < OwnerRank(s.owner)
    ensures OfThief(step) && !step.StealTopStep? ==>
      step.u in s.thieves && (step.u in s'.thieves ==> ThiefRank(s'.thieves[step.u]) < ThiefRank(s.thieves[step.u]))
    ensures OfThief(step) ==> s'.owner == s.owner
    ensures forall u :: u in s.thieves && (!OfThief(step) || step.u != u) ==> u in s'.thieves && s'.thieves[u] == s.thieves[u]
  {
  }

  /** The owner, inside a call, always has an access to make. */
  lemma OwnerCanStep(run: seq<State>, cells: seq<Item>) returns (s': State, step: Step)
    requires IsRun(run, cells) && run[|run| - 1].owner != Idle
    ensures NextStep(run[|run| - 1], s', step) && !OfThief(step)
  {
    RunInv(run, cells);
    s', step := OwnerStep(run[|run| - 1]);
  }

  lemma OwnerStep(s: State) returns (s': State, step: Step)
    requires Inv(s) && s.owner != Idle
    ensures NextStep(s, s', step) && !OfThief(step)
  {
    hide Resize;
    var a := s.arrays[s.cur];
    match s.owner
    case PushTop(x) => s', step := s.(owner := PushGrow(x, s.top)), PushReadTopStep;
    case PushGrow(x, t) =>
      var blank, n := Arr(a.cells + a.cells), s.bottom - t;
      step := PushMakeRoomStep(blank);
      s' := if |a.cells| - 1 < n then s.(arrays := s.arrays + [Resize(a, blank, t, n)], cur := |s.arrays|, owner := PushWrite(x))
            else s.(owner := PushWrite(x));
    case PushWrite(x) => s', step := s.(arrays := s.arrays[s.cur := a.Set(s.bottom, x)], owner := PushPublish(x)), PushWriteStep;
    case PushPublish(x) =>
      s', step := s.(bottom := s.bottom + 1, owner := Idle, deque := s.deque + [x], pushed := s.pushed + multiset{x}), PushRaiseStep;
    case PopTop =>
      step := PopReadTopStep;
      s' := if s.top < s.bottom then s.(owner := PopTake(s.deque[|s.deque| - 1]), deque := s.deque[..|s.deque| - 1])
            else s.(owner := if s.top == s.bottom then PopTakeLast else PopRestore(None));
    case PopTake(_) => s', step := s.(owner := Idle, got := s.got + multiset{a.Get(s.bottom)}), PopReadCellStep;
    case PopTakeLast => s', step := s.(owner := PopCas(a.Get(s.bottom))), PopReadLastStep;
    case PopCas(x) =>
      step := PopRaceStep;
      s' := if s.top == s.bottom then s.(top := s.top + 1, owner := PopRestore(Some(x)), deque := s.deque[1..])
            else s.(owner := PopRestore(None));
    case PopRestore(res) =>
      step := PopRaiseStep;
      s' := s.(bottom := s.bottom + 1, owner := Idle, got := if res.Some? then s.got + multiset{res.x} else s.got);
  }

  /** A steal of thread `u`, with no access of another thread in between. */
  ghost predicate StealsAlone(s: State, s': State, u: Tid)
  {
    exists s1, s2 :: StealReadTop(s, s1, u) && StealReadBottom(s1, s2, u) && if u in s2.thieves then TakesAlone(s2, s', u) else s' == s2
  }

  ghost predicate TakesAlone(s2: State, s': State, u: Tid)
  {
    exists s3, s4 :: StealReadArray(s2, s3, u) && StealReadCell(s3, s4, u) && StealRace(s4, s', u)
  }

  /** There is an item that the owner is not about to take. */
  ghost predicate Stealable(s: State) { s.deque != [] && (Lowered(s.owner) ==> |s.deque| > 1) }

  /** Such a steal can be made. */
  lemma StealAlone(run: seq<State>, cells: seq<Item>, u: Tid) returns (s': State)
    requires IsRun(run, cells) && u !in run[|run| - 1].thieves
    ensures StealsAlone(run[|run| - 1], s', u)
  {
    RunInv(run, cells);
    var s := run[|run| - 1];
    var s1 := s.(thieves := s.thieves[u := StealBottom(s.top)]);
    assert StealReadTop(s, s1, u);
    if s.top < s.bottom {
      var s2 := s1.(thieves := s1.thieves[u := StealArray(s.top)]);
      assert StealReadBottom(s1, s2, u);
      s' := StealGoesOn(s, s2, u);
    } else {
      s' := s1.(thieves := s1.thieves - {u});
      assert StealReadBottom(s1, s', u);
    }
  }

  /** It takes the first item if and only if there is one that the owner is not about to take. */
  lemma StealAloneTakes(run: seq<State>, cells: seq<Item>, u: Tid, s': State)
    requires IsRun(run, cells) && StealsAlone(run[|run| - 1], s', u)
    ensures var s := run[|run| - 1];
      && s'.thieves == s.thieves && s'.owner == s.owner
      && if Stealable(s) then s'.deque == s.deque[1..] && s'.got == s.got + multiset{s.deque[0]} else s'.deque == s.deque && s'.got == s.got
  {
    hide Inv, TakesAlone, StealReadTop, StealReadBottom, Next;
    RunInv(run, cells);
    var s := run[|run| - 1];
    var s1, s2 :| StealReadTop(s, s1, u) && StealReadBottom(s1, s2, u) && if u in s2.thieves then TakesAlone(s2, s', u) else s' == s2;
    AloneBegins(s, s1, s2, u);
    StealableIs(s);
    if u in s2.thieves { TakesFirst(s, s2, s', u); }
  }

  lemma AloneBegins(s: State, s1: State, s2: State, u: Tid)
    requires StealReadTop(s, s1, u) && StealReadBottom(s1, s2, u)
    ensures u !in s.thieves && s2 == if s.top < s.bottom then s.(thieves := s.thieves[u := StealArray(s.top)]) else s
  {
    assert s1.thieves - {u} == s.thieves;
  }

  lemma StealableIs(s: State)
    requires Inv(s)
    ensures Stealable(s) <==> s.top < s.bottom
  {
  }

  lemma TakesFirst(s: State, s2: State, s': State, u: Tid)
    requires Inv(s) && u !in s.thieves && s.top < s.bottom && s2 == s.(thieves := s.thieves[u := StealArray(s.top)]) && TakesAlone(s2, s', u)
    ensures s.deque != [] && s' == s.(top := s.top + 1, deque := s.deque[1..], got := s.got + multiset{s.deque[0]})
  {
    var s3, s4 :| StealReadArray(s2, s3, u) && StealReadCell(s3, s4, u) && StealRace(s4, s', u);
    assert s4.thieves - {u} == s.thieves;
  }

  lemma StealGoesOn(s: State, s2: State, u: Tid) returns (s': State)
    requires Inv(s) && u !in s.thieves && s.top < s.bottom && s2 == s.(thieves := s.thieves[u := StealArray(s.top)])
    ensures TakesAlone(s2, s', u)
  {
    var x := s.arrays[s.cur].Get(s.top);
    var s3 := s2.(thieves := s2.thieves[u := StealRead(s.top, s.cur)]);
    var s4 := s3.(thieves := s3.thieves[u := StealCas(s.top, x)]);
    s' := s4.(top := s.top + 1, thieves := s4.thieves - {u}, deque := s4.deque[1..], got := s4.got + multiset{x});
    assert StealReadArray(s2, s3, u) && StealReadCell(s3, s4, u) && StealRace(s4, s', u);
  }
}
