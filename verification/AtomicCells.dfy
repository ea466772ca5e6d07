/**
 What the operations of `AtomicSharedPtr`, `SharedPtr` and `WeakPtr` do to the pointers that cells and handles hold: in
 every run the cells are atomic registers, a load returns a pointer that its cell held during the call, no object is
 left undisposed, and calls come to an end.
 */
module AtomicCells {
  import opened SharedPtr

  // ---------------------------------------------------------------------------------------
  // Who moves
  // ---------------------------------------------------------------------------------------

  predicate ByThread(step: Step) {
    match step
    case NewStep(_, _) => false
    case CopyStep(_, _) => false
    case MakeWeakStep(_, _) => false
    case CopyWeakStep(_, _) => false
    case LockStep(_, _) => false
    case AppendSlotStep(_) => false
    case EnableStep => false
    case _ => true
  }

  /** Where in the code the thread of a step stands. */
  predicate Stands(step: Step, pc: PC)
    requires ByThread(step)
  {
    match step
    case ReadCellStep(_, c) => pc == LoadStart(c)
    case PublishStep(_, c, r) => pc == LoadProtect(c, r)
    case ValidateStep(_, c, r) => pc == LoadCheck(c, r)
    case IncrementStep(_, c, r, _) => pc == LoadIncrement(c, r)
    case DecStrongStep(_, p) => pc == DecStrong(p)
    case DisposeStep(_, p) => pc == Dispose(p)
    case DecWeakStep(_, p) => pc == DecWeak(p)
    case RetireStep(_, p) => pc == Retire(p)
    case ScanStep(_, i, found) => pc == Scan(i, found)
    case ScanEndStep(_, i, found) => pc == Scan(i, found)
    case SweepStep(_, j, found) => pc == Sweep(j, found)
    case SweepEndStep(_, j, found) => pc == Sweep(j, found)
    case WorkStep(_) => pc == Work
    case EjectStep(_, n) => pc == Eject(n)
    case PeekStep(_) => pc == Peek
    case PeekNextStep(_) => pc == Peeked
    case _ => pc == Idle
  }

  lemma StepStands(s: State, s': State, step: Step)
    requires NextStep(s, s', step) && ByThread(step)
    ensures step.t < |s.slots| && Stands(step, s.slots[step.t].pc)
  {
  }

  predicate OnCells(step: Step) {
    step.BeginLoadStep? || step.ReadCellStep? || step.PublishStep? || step.ValidateStep? || step.IncrementStep? || step.StoreStep?
    || step.ExchangeStep? || step.CasStep?
  }

  predicate OnCounts(step: Step) {
    step.NewStep? || step.CopyStep? || step.DropStep? || step.MakeWeakStep? || step.CopyWeakStep? || step.LockStep? || step.DropWeakStep?
    || step.DecStrongStep? || step.DisposeStep? || step.DecWeakStep?
  }

  /** A step moves its own thread only; new slots are idle. */
  ghost predicate Local(s: State, s': State, step: Step)
  {
    && |s.slots| <= |s'.slots|
    && (forall t :: 0 <= t < |s.slots| ==> s'.slots[t] == s.slots[t] || (ByThread(step) && step.t == t))
    && (forall t :: |s.slots| <= t < |s'.slots| ==> s'.slots[t].pc == Idle)
  }

  lemma StepLocal(s: State, s': State, step: Step)
    requires NextStep(s, s', step)
    ensures Local(s, s', step)
  {
    hide NextStep, Local;
    if OnCells(step) { CellsLocal(s, s', step); } else if OnCounts(step) { CountsLocal(s, s', step); } else { ReclaimLocal(s, s', step); }
  }

  lemma CellsLocal(s: State, s': State, step: Step)
    requires NextStep(s, s', step) && OnCells(step)
    ensures Local(s, s', step)
  {
  }

  lemma CountsLocal(s: State, s': State, step: Step)
    requires NextStep(s, s', step) && OnCounts(step)
    ensures Local(s, s', step)
  {
  }

  lemma ReclaimLocal(s: State, s': State, step: Step)
    requires NextStep(s, s', step) && !OnCells(step) && !OnCounts(step)
    ensures Local(s, s', step)
  {
  }

  // ---------------------------------------------------------------------------------------
  // Registers
  // ---------------------------------------------------------------------------------------

  function WeakValue(s: State, k: nat): Ptr { if WeakHandle(k) in s.wrefs then s.wrefs[WeakHandle(k)] else 0 }

  ghost predicate SameCells(s: State, s': State, but: set<nat>) { forall c :: c !in but ==> CellValue(s', c) == CellValue(s, c) }

  ghost predicate SameHandles(s: State, s': State, but: set<nat>) { forall k :: k !in but ==> HandleValue(s', k) == HandleValue(s, k) }

  ghost predicate SameWeak(s: State, s': State, but: set<nat>) { forall k :: k !in but ==> WeakValue(s', k) == WeakValue(s, k) }

  /** Thread `t` is about to drop the unit of `p`, if that is a block. */
  ghost predicate Owes(s: State, t: nat, p: Ptr)
  {
    && t < |s.slots|
    && if p == 0 then s.slots[t].pc == Idle
       else s.slots[t].pc == DecStrong(p) && Flight(t) in s.refs && s.refs[Flight(t)] == p
  }

  /** Some cell, handle or thread owns the object. */
  ghost predicate Owned(s: State, p: Ptr) { exists o :: o in s.refs && s.refs[o] == p }

  /** The pointer of handle `k` goes into cell `c`; that of the cell is dropped. */
  ghost predicate Writes(s: State, s': State, t: nat, c: nat, k: nat)
  {
    && CellValue(s', c) == HandleValue(s, k) && HandleValue(s', k) == 0 && Owes(s', t, CellValue(s, c))
    && SameCells(s, s', {c}) && SameHandles(s, s', {k}) && SameWeak(s, s', {})
  }

  ghost predicate OnlyHandle(s: State, s': State, k: nat, p: Ptr)
  {
    HandleValue(s', k) == p && SameCells(s, s', {}) && SameHandles(s, s', {k}) && SameWeak(s, s', {})
  }

  ghost predicate OnlyWeak(s: State, s': State, k: nat, p: Ptr)
  {
    WeakValue(s', k) == p && SameCells(s, s', {}) && SameHandles(s, s', {}) && SameWeak(s, s', {k})
  }

  ghost predicate Unseen(s: State, s': State) { SameCells(s, s', {}) && SameHandles(s, s', {}) && SameWeak(s, s', {}) }

  /** What each operation does to the pointers that cells and handles hold. */
  ghost predicate RegisterStep(s: State, s': State, step: Step)
  {
    match step
    case StoreStep(t, c, k) => Writes(s, s', t, c, k)
    case ExchangeStep(t, c, k, k') =>
      && CellValue(s', c) == HandleValue(s, k) && HandleValue(s', k) == 0 && HandleValue(s', k') == CellValue(s, c)
      && SameCells(s, s', {c}) && SameHandles(s, s', {k, k'}) && SameWeak(s, s', {})
    case CasStep(t, c, k, k', spurious) =>
      // it fails by going on to load the cell
      && t < |s'.slots|
      && (s'.slots[t].pc == LoadStart(c) <==> CellValue(s, c) != HandleValue(s, k) || spurious)
      && if s'.slots[t].pc == LoadStart(c) then Unseen(s, s') else Writes(s, s', t, c, k')
    case IncrementStep(t, c, r, k) =>
      && t < |s'.slots|
      && if s'.slots[t].pc == Idle then OnlyHandle(s, s', k, r) else s'.slots[t].pc == LoadStart(c) && Unseen(s, s')
    case NewStep(k, p) => OnlyHandle(s, s', k, p) && p != 0 && !Owned(s, p)
    case CopyStep(k, k') => OnlyHandle(s, s', k', HandleValue(s, k))
    case DropStep(t, k) => OnlyHandle(s, s', k, 0) && Owes(s', t, HandleValue(s, k))
    case LockStep(k, k') => OnlyHandle(s, s', k', if Owned(s, WeakValue(s, k)) then WeakValue(s, k) else 0)
    case MakeWeakStep(k, k') => OnlyWeak(s, s', k', HandleValue(s, k))
    case CopyWeakStep(k, k') => OnlyWeak(s, s', k', WeakValue(s, k))
    case DropWeakStep(t, k) => OnlyWeak(s, s', k, 0)
    case _ => Unseen(s, s')
  }

  /** In every run the cells are atomic registers: they change by writes, exchanges and successful exchanges only, and as these say. */
  lemma AtomicRegisters(run: seq<State>, hw: nat, s': State, step: Step)
    requires IsRun(run, hw) && NextStep(run[|run| - 1], s', step)
    ensures RegisterStep(run[|run| - 1], s', step)
  {
    hide RegisterStep, NextStep, Inv;
    RunInv(run, hw);
    StepRegisters(run[|run| - 1], s', step);
  }

  lemma StepRegisters(s: State, s': State, step: Step)
    requires Inv(s) && NextStep(s, s', step)
    ensures RegisterStep(s, s', step)
  {
    hide Inv, RegisterStep, Store, Exchange, CompareExchange, IncrementLoaded, New, Copy, Drop, MakeWeak, CopyWeak, Lock, DropWeak;
    match step
    case StoreStep(t, c, k) => StoreWrites(s, s', t, c, k);
    case ExchangeStep(t, c, k, k') => ExchangeSwaps(s, s', t, c, k, k');
    case CasStep(t, c, k, k', spurious) => CasDecides(s, s', t, c, k, k', spurious);
    case IncrementStep(t, c, r, k) => IncrementLoads(s, s', t, c, r, k);
    case NewStep(k, p) => NewHandle(s, s', k, p);
    case CopyStep(k, k') => CopyHandle(s, s', k, k');
    case DropStep(t, k) => DropHandle(s, s', t, k);
    case LockStep(k, k') => LockHandle(s, s', k, k');
    case MakeWeakStep(k, k') => WeakHandles(s, s', step, 0, k, k');
    case CopyWeakStep(k, k') => WeakHandles(s, s', step, 0, k, k');
    case DropWeakStep(t, k) => WeakHandles(s, s', step, t, k, k);
    case _ => OthersUnseen(s, s', step); UnseenRegisters(s, s', step);
  }

  lemma UnseenRegisters(s: State, s': State, step: Step)
    requires Unseen(s, s')
    requires !step.StoreStep? && !step.ExchangeStep? && !step.CasStep? && !step.IncrementStep? && !step.NewStep? && !step.CopyStep?
    requires !step.DropStep? && !step.LockStep? && !step.MakeWeakStep? && !step.CopyWeakStep? && !step.DropWeakStep?
    ensures RegisterStep(s, s', step)
  {
  }

  lemma NoFlight(s: State, t: nat)
    requires Inv(s) && t < |s.slots| && s.slots[t].pc == Idle
    ensures Flight(t) !in s.refs && WeakFlight(t) !in s.wrefs
  {
  }

  lemma NullIsNoBlock(s: State)
    requires Inv(s)
    ensures forall o :: o in s.refs ==> s.refs[o] != 0
    ensures forall o :: o in s.wrefs ==> s.wrefs[o] != 0
  {
  }

  /** What a swap of a cell with a handle leaves in cells and handles. */
  lemma Swapped(s: State, s': State, c: nat, to: Owner, k: nat)
    requires to !in s.refs && !to.Cell? && to != Handle(k) && s'.refs == PutInto(TakeFrom(s.refs, c, to), c, Handle(k)) && s'.wrefs == s.wrefs
    requires forall o :: o in s.refs ==> s.refs[o] != 0
    ensures CellValue(s', c) == HandleValue(s, k) && HandleValue(s', k) == 0 && SameCells(s, s', {c}) && SameWeak(s, s', {})
    ensures forall j :: j != k && to != Handle(j) ==> HandleValue(s', j) == HandleValue(s, j)
    ensures (if to in s'.refs then s'.refs[to] else 0) == CellValue(s, c)
  {
  }

  lemma StoreWrites(s: State, s': State, t: nat, c: nat, k: nat)
    requires Inv(s) && Store(s, s', t, c, k)
    ensures RegisterStep(s, s', StoreStep(t, c, k))
  {
    hide Inv, PutInto, TakeFrom;
    NoFlight(s, t);
    NullIsNoBlock(s);
    Swapped(s, s', c, Flight(t), k);
  }

  lemma ExchangeSwaps(s: State, s': State, t: nat, c: nat, k: nat, k': nat)
    requires Inv(s) && Exchange(s, s', t, c, k, k')
    ensures RegisterStep(s, s', ExchangeStep(t, c, k, k'))
  {
    hide Inv, PutInto, TakeFrom;
    NullIsNoBlock(s);
    Swapped(s, s', c, Handle(k'), k);
  }

  lemma CasDecides(s: State, s': State, t: nat, c: nat, k: nat, k': nat, spurious: bool)
    requires Inv(s) && CompareExchange(s, s', t, c, k, k', spurious)
    ensures RegisterStep(s, s', CasStep(t, c, k, k', spurious))
  {
    hide Inv, PutInto, TakeFrom;
    NoFlight(s, t);
    NullIsNoBlock(s);
    if CellValue(s, c) == HandleValue(s, k) && !spurious { Swapped(s, s', c, Flight(t), k'); }
  }

  lemma IncrementLoads(s: State, s': State, t: nat, c: nat, r: Ptr, k: nat)
    requires IncrementLoaded(s, s', t, c, r, k)
    ensures RegisterStep(s, s', IncrementStep(t, c, r, k))
  {
  }

  lemma NewHandle(s: State, s': State, k: nat, p: Ptr)
    requires Inv(s) && New(s, s', k, p)
    ensures RegisterStep(s, s', NewStep(k, p))
  {
    hide Counts, Flights, Sides, Bags, Hazards, Cursors;
  }

  lemma CopyHandle(s: State, s': State, k: nat, k': nat)
    requires Copy(s, s', k, k')
    ensures RegisterStep(s, s', CopyStep(k, k'))
  {
  }

  lemma DropHandle(s: State, s': State, t: nat, k: nat)
    requires Inv(s) && Drop(s, s', t, k)
    ensures RegisterStep(s, s', DropStep(t, k))
  {
    hide Inv;
    NullIsNoBlock(s);
  }

  /** A strong count is positive exactly if somebody owns the object. */
  lemma CountsOwners(s: State, p: Ptr)
    requires Inv(s) && p in s.heap
    ensures s.heap[p].strong > 0 <==> Owned(s, p)
  {
    if Owned(s, p) {
      var o :| o in s.refs && s.refs[o] == p;
      HolderCounts(s.refs, o);
    }
    if s.heap[p].strong > 0 { SomeHolder(s.refs, p); }
  }

  lemma SomeHolder(refs: map<Owner, Ptr>, p: Ptr)
    requires |Holders(refs, p)| > 0
    ensures exists o :: o in refs && refs[o] == p
  {
    var o :| o in Holders(refs, p);
  }

  lemma LockHandle(s: State, s': State, k: nat, k': nat)
    requires Inv(s) && Lock(s, s', k, k')
    ensures RegisterStep(s, s', LockStep(k, k'))
  {
    hide Inv, Owned;
    CountsOwners(s, WeakValue(s, k));
  }

  lemma WeakHandles(s: State, s': State, step: Step, t: nat, k: nat, k': nat)
    requires NextStep(s, s', step)
    requires step == MakeWeakStep(k, k') || step == CopyWeakStep(k, k') || step == DropWeakStep(t, k)
    ensures RegisterStep(s, s', step)
  {
  }

  /** A step that leaves owners alone, but for units in flight. */
  ghost predicate SameHolders(s: State, s': State)
  {
    && (forall o: Owner :: !o.Flight? ==> (o in s'.refs <==> o in s.refs) && (o in s.refs ==> s'.refs[o] == s.refs[o]))
    && (forall o: WeakOwner :: o.WeakHandle? ==> (o in s'.wrefs <==> o in s.wrefs) && (o in s.wrefs ==> s'.wrefs[o] == s.wrefs[o]))
  }

  lemma HoldersUnseen(s: State, s': State)
    requires SameHolders(s, s')
    ensures Unseen(s, s')
  {
  }

  lemma OthersUnseen(s: State, s': State, step: Step)
    requires NextStep(s, s', step)
    requires !step.StoreStep? && !step.ExchangeStep? && !step.CasStep? && !step.IncrementStep? && !step.NewStep? && !step.CopyStep?
    requires !step.DropStep? && !step.LockStep? && !step.MakeWeakStep? && !step.CopyWeakStep? && !step.DropWeakStep?
    ensures Unseen(s, s')
  {
    hide Store, Exchange, CompareExchange, IncrementLoaded, New, Copy, Drop, MakeWeak, CopyWeak, Lock, DropWeak, Unseen;
    if !step.DecStrongStep? && !step.DisposeStep? && !step.DecWeakStep? {
      assert s'.refs == s.refs && s'.wrefs == s.wrefs;
    }
    HoldersUnseen(s, s');
  }

  // ---------------------------------------------------------------------------------------
  // Loads
  // ---------------------------------------------------------------------------------------

  predicate Loads(pc: PC, c: nat) {
    match pc
    case LoadStart(d) => c == d
    case LoadProtect(d, _) => c == d
    case LoadCheck(d, _) => c == d
    case LoadIncrement(d, _) => c == d
    case _ => false
  }

  /** From state `j` on thread `t` has been inside a load of cell `c`, and the cell held `p` then. */
  ghost predicate HeldAt(run: seq<State>, j: nat, t: nat, c: nat, p: Ptr)
  {
    && j < |run| && CellValue(run[j], c) == p
    && forall m :: j <= m < |run| ==> t < |run[m].slots| && Loads(run[m].slots[t].pc, c)
  }

  lemma HeldOn(run: seq<State>, j: nat, t: nat, c: nat, p: Ptr)
    requires |run| > 1 && HeldAt(run[..|run| - 1], j, t, c, p) && t < |run[|run| - 1].slots| && Loads(run[|run| - 1].slots[t].pc, c)
    ensures HeldAt(run, j, t, c, p)
  {
    forall m | j <= m < |run| ensures t < |run[m].slots| && Loads(run[m].slots[t].pc, c) {
      if m < |run| - 1 { assert run[..|run| - 1][m] == run[m]; }
    }
  }

  /** Only thread `t` itself comes to the increment of a load, by finding that the cell holds what it has published. */
  lemma ComesToIncrement(s: State, s': State, step: Step, t: nat)
    requires NextStep(s, s', step) && t < |s'.slots| && s'.slots[t].pc.LoadIncrement?
    ensures t < |s.slots|
    ensures s.slots[t].pc == s'.slots[t].pc
            || (s.slots[t].pc.LoadCheck? && s.slots[t].pc.c == s'.slots[t].pc.c && CellValue(s, s'.slots[t].pc.c) == s'.slots[t].pc.r)
  {
    hide NextStep;
    StepLocal(s, s', step);
    if s'.slots[t] != s.slots[t] {
      StepStands(s, s', step);
      IncrementComes(s, s', step);
    }
  }

  lemma IncrementComes(s: State, s': State, step: Step)
    requires NextStep(s, s', step) && ByThread(step) && step.t < |s'.slots| && s'.slots[step.t].pc.LoadIncrement?
    ensures step.ValidateStep? && CellValue(s, step.c) == step.r && s'.slots[step.t].pc == LoadIncrement(step.c, step.r)
  {
    hide New, Copy, MakeWeak, CopyWeak, Lock, AppendSlot, EnableIncremental;
    StepStands(s, s', step);
  }

  lemma InitIdle(s: State, hw: nat)
    requires Init(s, hw)
    ensures forall t :: 0 <= t < |s.slots| ==> s.slots[t].pc == Idle
  {
  }

  lemma {:induction false} IncrementHeld(run: seq<State>, hw: nat, t: nat) returns (j: nat)
    requires IsRun(run, hw) && t < |run[|run| - 1].slots| && run[|run| - 1].slots[t].pc.LoadIncrement?
    ensures var pc := run[|run| - 1].slots[t].pc; HeldAt(run, j, t, pc.c, pc.r)
  {
    hide NextStep, Init;
    var m := |run| - 1;
    var pc := run[m].slots[t].pc;
    if m == 0 { InitIdle(run[0], hw); }
    assert Next(run[m - 1], run[m]);
    var step :| NextStep(run[m - 1], run[m], step);
    ComesToIncrement(run[m - 1], run[m], step, t);
    if run[m - 1].slots[t].pc == pc {
      j := IncrementHeld(run[..m], hw, t);
      HeldOn(run, j, t, pc.c, pc.r);
    } else {
      j := m - 1;
    }
  }

  /** What a load that ends in this step returns: the handle it has made, or null. */
  function LoadResult(s': State, step: Step): Ptr { if step.IncrementStep? then HandleValue(s', step.k) else 0 }

  /** A load returns a pointer that the cell held at some time during the call, or null if it held none. */
  lemma LoadHeld(run: seq<State>, hw: nat, s': State, step: Step, t: nat, c: nat) returns (j: nat)
    requires IsRun(run, hw) && NextStep(run[|run| - 1], s', step)
    requires var s := run[|run| - 1]; t < |s.slots| && t < |s'.slots| && Loads(s.slots[t].pc, c) && !Loads(s'.slots[t].pc, c)
    ensures s'.slots[t].pc == Idle && HeldAt(run, j, t, c, LoadResult(s', step))
  {
    hide NextStep, Init, Next;
    var s := run[|run| - 1];
    if s.slots[t].pc.LoadIncrement? {
      LoadEnds(s, s', step, t, c);
      j := IncrementHeld(run, hw, t);
    } else {
      LoadEndsNull(s, s', step, t, c);
      j := |run| - 1;
    }
  }

  lemma LoadEnds(s: State, s': State, step: Step, t: nat, c: nat)
    requires NextStep(s, s', step) && t < |s.slots| && t < |s'.slots| && Loads(s.slots[t].pc, c) && !Loads(s'.slots[t].pc, c)
    requires s.slots[t].pc.LoadIncrement?
    ensures s'.slots[t].pc == Idle && LoadResult(s', step) == s.slots[t].pc.r
  {
    hide Store, Exchange, CompareExchange, New, Copy, Drop, MakeWeak, CopyWeak, Lock, DropWeak, DoDecStrong, DoDispose, DoDecWeak, DoRetire, ScanOne, ScanEnd, SweepOne, SweepEnd, BeginWork, EjectOne, PeekOne, PeekNext, AppendSlot, EnableIncremental;
    StepLocal(s, s', step);
    StepStands(s, s', step);
  }

  lemma LoadEndsNull(s: State, s': State, step: Step, t: nat, c: nat)
    requires NextStep(s, s', step) && t < |s.slots| && t < |s'.slots| && Loads(s.slots[t].pc, c) && !Loads(s'.slots[t].pc, c)
    requires !s.slots[t].pc.LoadIncrement?
    ensures s'.slots[t].pc == Idle && LoadResult(s', step) == 0 == CellValue(s, c)
  {
    hide Store, Exchange, CompareExchange, New, Copy, Drop, MakeWeak, CopyWeak, Lock, DropWeak, DoDecStrong, DoDispose, DoDecWeak, DoRetire, ScanOne, ScanEnd, SweepOne, SweepEnd, BeginWork, EjectOne, PeekOne, PeekNext, AppendSlot, EnableIncremental;
    StepLocal(s, s', step);
    StepStands(s, s', step);
  }

  // ---------------------------------------------------------------------------------------
  // Nothing is left behind
  // ---------------------------------------------------------------------------------------

  /** An object without owner has been disposed of, or a thread is about to do it. */
  ghost predicate Disposing(s: State)
  {
    forall p :: p in s.heap && s.heap[p].strong == 0 && !s.heap[p].disposed ==>
      exists t :: 0 <= t < |s.slots| && s.slots[t].pc == Dispose(p)
  }

  /** A step takes a thread off a disposal only by doing it, and takes the last strong unit only by coming to it. */
  lemma DisposalStays(s: State, s': State, step: Step, t: nat, p: Ptr)
    requires NextStep(s, s', step) && t < |s.slots| && s.slots[t].pc == Dispose(p) && p in s'.heap && !s'.heap[p].disposed
    ensures t < |s'.slots| && s'.slots[t].pc == Dispose(p)
  {
    hide BeginLoad, ReadCell, Publish, Validate, IncrementLoaded, Store, Exchange, CompareExchange, Drop, DropWeak, DoDecStrong, DoDecWeak, DoRetire, ScanOne, ScanEnd, SweepOne, SweepEnd, BeginWork, EjectOne, PeekOne, PeekNext;
    StepLocal(s, s', step);
    if ByThread(step) { StepStands(s, s', step); }
  }

  /** A block loses its last strong unit only to a thread that then disposes of it. */
  lemma BecomesUnowned(s: State, s': State, step: Step, p: Ptr)
    requires NextStep(s, s', step) && p in s'.heap && s'.heap[p].strong == 0 && !s'.heap[p].disposed
    requires !(p in s.heap && s.heap[p].strong == 0 && !s.heap[p].disposed)
    ensures exists t :: 0 <= t < |s'.slots| && s'.slots[t].pc == Dispose(p)
  {
    hide NextStep;
    if OnCells(step) { CellsOwned(s, s', step, p); assert false; }
    if !OnCells(step) && !OnCounts(step) { ReclaimOwned(s, s', step, p); assert false; }
    CountsOwned(s, s', step, p);
    assert s'.slots[step.t].pc == Dispose(p);
  }

  lemma CellsOwned(s: State, s': State, step: Step, p: Ptr)
    requires NextStep(s, s', step) && OnCells(step) && p in s'.heap && s'.heap[p].strong == 0 && !s'.heap[p].disposed
    ensures p in s.heap && s.heap[p].strong == 0 && !s.heap[p].disposed
  {
  }

  lemma ReclaimOwned(s: State, s': State, step: Step, p: Ptr)
    requires NextStep(s, s', step) && !OnCells(step) && !OnCounts(step) && p in s'.heap
    ensures p in s.heap && s'.heap[p] == s.heap[p]
  {
  }

  lemma CountsOwned(s: State, s': State, step: Step, p: Ptr)
    requires NextStep(s, s', step) && OnCounts(step) && p in s'.heap && s'.heap[p].strong == 0 && !s'.heap[p].disposed
    requires !(p in s.heap && s.heap[p].strong == 0 && !s.heap[p].disposed)
    ensures step.DecStrongStep? && step.t < |s'.slots| && s'.slots[step.t].pc == Dispose(p)
  {
  }

  lemma StepDisposing(s: State, s': State, step: Step)
    requires Disposing(s) && NextStep(s, s', step)
    ensures Disposing(s')
  {
    hide NextStep;
    forall p | p in s'.heap && s'.heap[p].strong == 0 && !s'.heap[p].disposed
      ensures exists t :: 0 <= t < |s'.slots| && s'.slots[t].pc == Dispose(p)
    {
      if p in s.heap && s.heap[p].strong == 0 && !s.heap[p].disposed {
        var t :| 0 <= t < |s.slots| && s.slots[t].pc == Dispose(p);
        DisposalStays(s, s', step, t, p);
      } else {
        BecomesUnowned(s, s', step, p);
      }
    }
  }

  lemma {:induction false} RunDisposing(run: seq<State>, hw: nat)
    requires IsRun(run, hw)
    ensures Disposing(run[|run| - 1])
  {
    var m := |run| - 1;
    if m > 0 {
      RunDisposing(run[..m], hw);
      assert Next(run[m - 1], run[m]);
      var step :| NextStep(run[m - 1], run[m], step);
      StepDisposing(run[m - 1], run[m], step);
    }
  }

  lemma OneDisposer(s: State, t: nat, p: Ptr)
    requires Inv(s) && t < |s.slots| && s.slots[t].pc == Dispose(p)
    ensures forall u :: 0 <= u < |s.slots| && u != t ==> s.slots[u].pc != Dispose(p)
  {
    hide Bags, Hazards, Cursors, Live, Counts, Flights;
  }

  /** An object that nobody owns has been disposed of, unless exactly one thread is about to do it. */
  lemma NothingLeaks(run: seq<State>, hw: nat, p: Ptr)
    requires IsRun(run, hw) && p in run[|run| - 1].heap && !Owned(run[|run| - 1], p) && !run[|run| - 1].heap[p].disposed
    ensures var s := run[|run| - 1];
      exists t :: 0 <= t < |s.slots| && s.slots[t].pc == Dispose(p) && forall u :: 0 <= u < |s.slots| && u != t ==> s.slots[u].pc != Dispose(p)
  {
    hide Inv, Owned, Next, Init;
    var s := run[|run| - 1];
    RunInv(run, hw);
    RunDisposing(run, hw);
    CountsOwners(s, p);
    var t :| 0 <= t < |s.slots| && s.slots[t].pc == Dispose(p);
    OneDisposer(s, t, p);
  }

  // ---------------------------------------------------------------------------------------
  // Calls come to an end
  // ---------------------------------------------------------------------------------------

  /** How many accesses a thread still needs if nobody disturbs it; a cell that has changed costs a load another round. */
  ghost function Rank(s: State, t: nat): nat
    requires t < |s.slots|
  {
    var sl := s.slots[t];
    match sl.pc
    case Idle => 0
    case LoadStart(_) => 4
    case LoadProtect(c, r) => if CellValue(s, c) == r then 3 else 5
    case LoadCheck(c, r) => if CellValue(s, c) == r then 2 else 4
    case LoadIncrement(_, r) => if r in s.heap && s.heap[r].strong > 0 then 1 else 5
    case DecStrong(_) => |s.slots| + |sl.retired| + 13
    case Dispose(_) => |s.slots| + |sl.retired| + 12
    case DecWeak(_) => |s.slots| + |sl.retired| + 11
    case Retire(_) => |s.slots| + |sl.retired| + 10
    case Scan(i, _) => (if i < |s.slots| then |s.slots| - i else 0) + |sl.retired| + 2
    case Sweep(j, _) => (if j < |sl.retired| then |sl.retired| - j else 0) + 1
    case Work => 6
    case Eject(n) => n + 3
    case Peek => 2
    case Peeked => 1
  }

  /** What a cell holds has a strong unit. */
  lemma HeldIsCounted(s: State, c: nat)
    requires Inv(s) && CellValue(s, c) != 0
    ensures CellValue(s, c) in s.heap && s.heap[CellValue(s, c)].strong > 0
  {
    HolderCounts(s.refs, Cell(c));
  }

  /** Every access of a call brings it nearer to its end. */
  lemma OwnStep(run: seq<State>, hw: nat, s': State, step: Step)
    requires IsRun(run, hw) && NextStep(run[|run| - 1], s', step) && ByThread(step)
    requires step.t < |run[|run| - 1].slots| && run[|run| - 1].slots[step.t].pc != Idle
    ensures step.t < |s'.slots| && Rank(s', step.t) < Rank(run[|run| - 1], step.t)
  {
    hide NextStep, Inv, Rank;
    RunInv(run, hw);
    StepRank(run[|run| - 1], s', step);
  }

  lemma StepRank(s: State, s': State, step: Step)
    requires Inv(s) && NextStep(s, s', step) && ByThread(step) && step.t < |s.slots| && s.slots[step.t].pc != Idle
    ensures step.t < |s'.slots| && Rank(s', step.t) < Rank(s, step.t)
  {
    hide Inv, Rank, NextStep;
    StepStands(s, s', step);
    match step
    case ReadCellStep(t, c) => LoadRank(s, s', step);
    case PublishStep(t, c, r) => LoadRank(s, s', step);
    case ValidateStep(t, c, r) =>
      if CellValue(s, c) != 0 { HeldIsCounted(s, c); }
      CheckedNotNull(s, t);
      LoadRank(s, s', step);
    case IncrementStep(t, c, r, k) => LoadRank(s, s', step);
    case DecStrongStep(t, p) => DropRank(s, s', step);
    case DisposeStep(t, p) => DropRank(s, s', step);
    case DecWeakStep(t, p) => DropRank(s, s', step);
    case RetireStep(t, p) => DropRank(s, s', step);
    case ScanStep(t, i, found) => SweepRank(s, s', step);
    case ScanEndStep(t, i, found) => SweepRank(s, s', step);
    case SweepStep(t, j, found) => SweepRank(s, s', step);
    case SweepEndStep(t, j, found) => SweepRank(s, s', step);
    case _ => WorkRank(s, s', step);
  }

  lemma CheckedNotNull(s: State, t: nat)
    requires Inv(s) && t < |s.slots| && s.slots[t].pc.LoadCheck?
    ensures s.slots[t].pc.r != 0
  {
    assert CursorOk(s.slots[t], |s.slots|);
  }

  lemma LoadRank(s: State, s': State, step: Step)
    requires NextStep(s, s', step) && (step.ReadCellStep? || step.PublishStep? || step.ValidateStep? || step.IncrementStep?)
    requires (step.ValidateStep? ==> step.r != 0) && (step.ValidateStep? && CellValue(s, step.c) != 0 ==> CellValue(s, step.c) in s.heap && s.heap[CellValue(s, step.c)].strong > 0)
    ensures step.t < |s.slots| && step.t < |s'.slots| && Rank(s', step.t) < Rank(s, step.t)
  {
  }

  lemma DropRank(s: State, s': State, step: Step)
    requires NextStep(s, s', step) && (step.DecStrongStep? || step.DisposeStep? || step.DecWeakStep? || step.RetireStep?)
    ensures step.t < |s.slots| && step.t < |s'.slots| && Rank(s', step.t) < Rank(s, step.t)
  {
  }

  lemma SweepRank(s: State, s': State, step: Step)
    requires NextStep(s, s', step) && (step.ScanStep? || step.ScanEndStep? || step.SweepStep? || step.SweepEndStep?)
    ensures step.t < |s.slots| && step.t < |s'.slots| && Rank(s', step.t) < Rank(s, step.t)
  {
  }

  lemma WorkRank(s: State, s': State, step: Step)
    requires NextStep(s, s', step) && (step.WorkStep? || step.EjectStep? || step.PeekStep? || step.PeekNextStep?)
    ensures step.t < |s.slots| && step.t < |s'.slots| && Rank(s', step.t) < Rank(s, step.t)
  {
    hide Rank;
    match step
    case WorkStep(t) => BeginRank(s, s', t);
    case EjectStep(t, n) => EjectRank(s, s', t, n);
    case PeekStep(t) => PeekRank(s, s', t);
    case PeekNextStep(t) => PeekRank(s, s', t);
  }

  lemma BeginRank(s: State, s': State, t: nat)
    requires BeginWork(s, s', t)
    ensures t < |s.slots| && t < |s'.slots| && Rank(s', t) < Rank(s, t)
  {
  }

  lemma EjectRank(s: State, s': State, t: nat, n: nat)
    requires EjectOne(s, s', t, n)
    ensures t < |s.slots| && t < |s'.slots| && Rank(s', t) < Rank(s, t)
  {
  }

  lemma PeekRank(s: State, s': State, t: nat)
    requires PeekOne(s, s', t) || PeekNext(s, s', t)
    ensures t < |s.slots| && t < |s'.slots| && Rank(s', t) < Rank(s, t)
  {
  }

  /** A thread inside a call always has an access to make. */
  lemma CanStep(run: seq<State>, hw: nat, t: nat) returns (s': State, step: Step)
    requires IsRun(run, hw) && t < |run[|run| - 1].slots| && run[|run| - 1].slots[t].pc != Idle
    ensures NextStep(run[|run| - 1], s', step) && ByThread(step) && step.t == t
  {
    var s := run[|run| - 1];
    RunInv(run, hw);
    MemorySafe(run, hw);
    assert TouchesLive(s, s.slots[t].pc) && CursorOk(s.slots[t], |s.slots|);
    hide Inv;
    s', step := StepOf(s, t);
  }

  lemma FreshHandle(s: State) returns (k: nat)
    ensures Handle(k) !in s.refs
  {
    var ks := set o | o in s.refs && o.Handle? :: o.k;
    assert forall o :: o in s.refs && o.Handle? ==> o.k in ks;
    k := AboveAll(ks);
  }

  lemma {:induction false} AboveAll(ks: set<nat>) returns (k: nat)
    ensures k !in ks && forall x :: x in ks ==> x < k
    decreases |ks|
  {
    if ks == {} {
      k := 0;
    } else {
      var x :| x in ks;
      var d := AboveAll(ks - {x});
      k := if x < d then d else x + 1;
      assert forall y :: y in ks ==> y == x || y in ks - {x};
    }
  }

  lemma StepOf(s: State, t: nat) returns (s': State, step: Step)
    requires t < |s.slots| && s.slots[t].pc != Idle && TouchesLive(s, s.slots[t].pc) && CursorOk(s.slots[t], |s.slots|)
    ensures NextStep(s, s', step) && ByThread(step) && step.t == t
  {
    var sl := s.slots[t];
    match sl.pc
    case LoadStart(c) =>
      s', step := Goto(s, t, if CellValue(s, c) == 0 then Idle else LoadProtect(c, CellValue(s, c))), ReadCellStep(t, c);
    case LoadProtect(c, r) => s', step := s.(slots := s.slots[t := sl.(pc := LoadCheck(c, r), hazard := r)]), PublishStep(t, c, r);
    case LoadCheck(c, r) =>
      var cur := CellValue(s, c);
      s', step := Goto(s, t, if cur == r then LoadIncrement(c, r) else if cur == 0 then Idle else LoadProtect(c, cur)), ValidateStep(t, c, r);
    case LoadIncrement(c, r) =>
      var k := FreshHandle(s);
      step := IncrementStep(t, c, r, k);
      s' := if s.heap[r].strong > 0 then Goto(SetStrong(s, r, s.heap[r].strong + 1), t, Idle).(refs := s.refs[Handle(k) := r])
            else Goto(s, t, LoadStart(c));
    case Retire(p) =>
      step := RetireStep(t, p);
      var pushed := sl.(retired := [p] + sl.retired);
      s' := s.(slots := s.slots[t :=
        if s.incremental then pushed.(pc := Work)
        else if sl.since + 1 >= CLEANUP_THRESHOLD then pushed.(pc := Scan(0, {}), since := 0)
        else pushed.(pc := Idle, since := sl.since + 1)]);
    case DecStrong(p) => s', step := DropStepOf(s, t);
    case Dispose(p) => s', step := DropStepOf(s, t);
    case DecWeak(p) => s', step := DropStepOf(s, t);
    case _ => s', step := ReclaimStepOf(s, t);
  }

  lemma DropStepOf(s: State, t: nat) returns (s': State, step: Step)
    requires t < |s.slots| && TouchesLive(s, s.slots[t].pc)
    requires var pc := s.slots[t].pc; pc.DecStrong? || pc.Dispose? || pc.DecWeak?
    ensures NextStep(s, s', step) && ByThread(step) && step.t == t
  {
    match s.slots[t].pc
    case DecStrong(p) =>
      step := DecStrongStep(t, p);
      s' := Goto(SetStrong(s, p, s.heap[p].strong - 1), t, if s.heap[p].strong == 1 then Dispose(p) else Idle).(refs := s.refs - {Flight(t)});
    case Dispose(p) =>
      step := DisposeStep(t, p);
      s' := Goto(s, t, DecWeak(p)).(heap := s.heap[p := s.heap[p].(disposed := true)], wrefs := Move(s.wrefs, StrongSide(p), WeakFlight(t)));
    case DecWeak(p) =>
      step := DecWeakStep(t, p);
      s' := Goto(SetWeak(s, p, s.heap[p].weak - 1), t, if s.heap[p].weak == 1 then Retire(p) else Idle).(wrefs := s.wrefs - {WeakFlight(t)});
  }

  lemma ReclaimStepOf(s: State, t: nat) returns (s': State, step: Step)
    requires t < |s.slots| && CursorOk(s.slots[t], |s.slots|)
    requires var pc := s.slots[t].pc; pc.Scan? || pc.Sweep? || pc.Work? || pc.Eject? || pc.Peek? || pc.Peeked?
    ensures NextStep(s, s', step) && ByThread(step) && step.t == t
  {
    var sl := s.slots[t];
    match sl.pc
    case Scan(i, found) =>
      if i < |s.slots| {
        s', step := Goto(s, t, Scan(i + 1, if s.slots[i].hazard == 0 then found else found + {s.slots[i].hazard})), ScanStep(t, i, found);
      } else {
        s', step := s.(slots := s.slots[t := sl.(pc := Sweep(0, found), lastSlots := i)]), ScanEndStep(t, i, found);
      }
    case Sweep(j, found) =>
      if j < |sl.retired| {
        var p := sl.retired[j];
        step := SweepStep(t, j, found);
        s' := if p in found then Goto(s, t, Sweep(j + 1, found))
              else s.(heap := s.heap - {p}, slots := s.slots[t := sl.(retired := Remove(sl.retired, j))]);
      } else {
        s', step := Goto(s, t, Idle), SweepEndStep(t, j, found);
      }
    case Work =>
      var n := sl.numRetires + 1;
      step := WorkStep(t);
      s' := s.(slots := s.slots[t :=
        if sl.cursor.AtSlot? then sl.(numRetires := n, pc := Eject(2))
        else if n < 2 * sl.numHazards then sl.(numRetires := n, pc := Idle)
        else sl.(numRetires := 0, numHazards := sl.nextNumHazards, nextNumHazards := 0, cursor := AtSlot(0),
                 guarded := sl.nextGuarded, nextGuarded := {},
                 eligible := sl.eligible + sl.nextEligible, nextEligible := sl.retired, retired := [], pc := Eject(2))]);
    case Eject(n) => s', step := EjectStepOf(s, t, n);
    case Peek =>
      s' := s.(slots := s.slots[t := sl.(pc := Peeked, nextNumHazards := sl.nextNumHazards + 1,
                                         nextGuarded := sl.nextGuarded + {s.slots[sl.cursor.i].hazard})]);
      step := PeekStep(t);
    case Peeked =>
      var i := sl.cursor.i;
      s', step := s.(slots := s.slots[t := sl.(pc := Idle, cursor := if i + 1 < |s.slots| then AtSlot(i + 1) else Done)]), PeekNextStep(t);
  }

  lemma EjectStepOf(s: State, t: nat, n: nat) returns (s': State, step: Step)
    requires Runs(s, t, Eject(n))
    ensures NextStep(s, s', step) && ByThread(step) && step.t == t
  {
    var sl := s.slots[t];
    step := EjectStep(t, n);
    if n == 0 || sl.eligible == [] {
      s' := Goto(s, t, Peek);
    } else {
      var p := sl.eligible[0];
      var rest := sl.(eligible := sl.eligible[1..], pc := Eject(n - 1));
      s' := if p in sl.guarded then s.(slots := s.slots[t := rest.(retired := [p] + sl.retired)])
            else s.(heap := s.heap - {p}, slots := s.slots[t := rest]);
    }
  }
}
