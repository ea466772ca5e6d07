/**
 `AtomicSharedPtr`, `WeakPtr` and the hazard-pointer list under them, as one step relation over any
 number of threads, cells and control blocks.

 The strong count is the atomic sticky counter that `StickyCounter` proves the source's counter to be:
 an increment at zero fails. A destroyed block leaves `heap`, and its address may be used again by a
 later allocation, so a pointer held across a destruction is an ordinary (ABA) hazard of this model.
 Both reclamation modes are here: the bulk scan and sweep, and the incremental reclaimer.
 */
module SharedPtr {

  /** The address of a control block; 0 is the null pointer. */
  type Ptr = nat

  /** Where one strong unit lives: in a cell, in a `SharedPtr`, or in a thread about to drop it. */
  datatype Owner = Cell(c: nat) | Handle(k: nat) | Flight(t: nat)

  /** Where one weak unit lives; all strong owners together hold the unit `StrongSide`. */
  datatype WeakOwner = StrongSide(p: Ptr) | WeakHandle(k: nat) | WeakFlight(t: nat)

  datatype Block = Block(strong: nat, weak: nat, disposed: bool)

  datatype PC =
    | Idle
    | LoadStart(c: nat)
    | LoadProtect(c: nat, r: Ptr)     // about to publish the hazard
    | LoadCheck(c: nat, r: Ptr)       // hazard published, about to read the cell again
    | LoadIncrement(c: nat, r: Ptr)   // hazard validated, about to touch the block
    | DecStrong(p: Ptr)
    | Dispose(p: Ptr)
    | DecWeak(p: Ptr)
    | Retire(p: Ptr)
    | Scan(i: nat, found: set<Ptr>)   // bulk mode: collecting hazards
    | Sweep(j: nat, found: set<Ptr>)  // bulk mode: filtering the retired list
    | Work                            // incremental mode, see do_reclamation_work
    | Eject(n: nat)
    | Peek                          // about to read the hazard of the slot at the cursor
    | Peeked                        // about to read which slot is next

  datatype Cursor = Done | AtSlot(i: nat)

  /** One hazard slot, together with the thread that owns it. */
  datatype Slot = Slot(
    pc: PC,
    hazard: Ptr,
    retired: seq<Ptr>,
    since: nat,              // retires since the last bulk cleanup
    lastSlots: nat,          // slots scanned by the last bulk cleanup
    numRetires: nat,
    numHazards: nat,
    nextNumHazards: nat,
    cursor: Cursor,
    guarded: set<Ptr>,       // protected_set
    nextGuarded: set<Ptr>,   // next_protected_set
    eligible: seq<Ptr>,
    nextEligible: seq<Ptr>)

  datatype State = State(
    incremental: bool,
    heap: map<Ptr, Block>,
    refs: map<Owner, Ptr>,
    wrefs: map<WeakOwner, Ptr>,
    slots: seq<Slot>)

  const CLEANUP_THRESHOLD: nat := 2000

  // ---------------------------------------------------------------------------------------
  // Steps
  // ---------------------------------------------------------------------------------------

  function NewSlot(hw: nat): Slot
  {
    Slot(Idle, 0, [], 0, 0, 0, hw, hw, Done, {}, {}, [], [])
  }

  /** `hw` is the hardware concurrency: that many slots exist from the start. */
  ghost predicate Init(s: State, hw: nat)
  {
    s == State(false, map[], map[], map[], seq(hw, _ => NewSlot(hw)))
  }

  ghost predicate Runs(s: State, t: nat, pc: PC) { t < |s.slots| && s.slots[t].pc == pc }

  ghost function Goto(s: State, t: nat, pc: PC): State
    requires t < |s.slots|
  {
    s.(slots := s.slots[t := s.slots[t].(pc := pc)])
  }

  function CellValue(s: State, c: nat): Ptr { if Cell(c) in s.refs then s.refs[Cell(c)] else 0 }

  /** Hand the unit of `a` over to `b`, which has none. */
  function Move<O>(refs: map<O, Ptr>, a: O, b: O): map<O, Ptr>
    requires a in refs
  {
    (refs - {a})[b := refs[a]]
  }

  function SetStrong(s: State, p: Ptr, n: nat): State
    requires p in s.heap
  {
    s.(heap := s.heap[p := s.heap[p].(strong := n)])
  }

  function SetWeak(s: State, p: Ptr, n: nat): State
    requires p in s.heap
  {
    s.(heap := s.heap[p := s.heap[p].(weak := n)])
  }

  // --- AtomicSharedPtr::load ---

  ghost predicate BeginLoad(s: State, s': State, t: nat, c: nat)
  {
    Runs(s, t, Idle) && s' == Goto(s, t, LoadStart(c))
  }

  ghost predicate ReadCell(s: State, s': State, t: nat, c: nat)
  {
    && Runs(s, t, LoadStart(c))
    && s' == Goto(s, t, if CellValue(s, c) == 0 then Idle else LoadProtect(c, CellValue(s, c)))
  }

  ghost predicate Publish(s: State, s': State, t: nat, c: nat, r: Ptr)
  {
    && Runs(s, t, LoadProtect(c, r))
    && s' == s.(slots := s.slots[t := s.slots[t].(pc := LoadCheck(c, r), hazard := r)])
  }

  ghost predicate Validate(s: State, s': State, t: nat, c: nat, r: Ptr)
  {
    && Runs(s, t, LoadCheck(c, r))
    && var cur := CellValue(s, c);
       s' == Goto(s, t, if cur == r then LoadIncrement(c, r) else if cur == 0 then Idle else LoadProtect(c, cur))
  }

  /** The increment touches the block; at zero it fails and the load starts over. */
  ghost predicate IncrementLoaded(s: State, s': State, t: nat, c: nat, r: Ptr, k: nat)
  {
    && Runs(s, t, LoadIncrement(c, r)) && Handle(k) !in s.refs && r in s.heap
    && s' == if s.heap[r].strong > 0
             then Goto(SetStrong(s, r, s.heap[r].strong + 1), t, Idle).(refs := s.refs[Handle(k) := r])
             else Goto(s, t, LoadStart(c))
  }

  // --- store, exchange, compare_exchange ---

  /** The old unit of cell `c`, if any, goes to `to`. */
  ghost function TakeFrom(refs: map<Owner, Ptr>, c: nat, to: Owner): map<Owner, Ptr>
  {
    if Cell(c) in refs then Move(refs, Cell(c), to) else refs
  }

  /** The unit of `desired`, if it has one, goes into the emptied cell `c`. */
  ghost function PutInto(refs: map<Owner, Ptr>, c: nat, desired: Owner): map<Owner, Ptr>
  {
    if desired in refs then Move(refs, desired, Cell(c)) else refs
  }

  /** `store`; a handle without a unit stands for a null pointer. */
  ghost predicate Store(s: State, s': State, t: nat, c: nat, desired: nat)
  {
    && Runs(s, t, Idle)
    && var was := CellValue(s, c);
       s' == Goto(s, t, if was == 0 then Idle else DecStrong(was)).(
               refs := PutInto(TakeFrom(s.refs, c, Flight(t)), c, Handle(desired)))
  }

  /** `exchange`: the old unit ends up in the returned handle `k`. */
  ghost predicate Exchange(s: State, s': State, t: nat, c: nat, desired: nat, k: nat)
  {
    && Runs(s, t, Idle) && Handle(k) !in s.refs && k != desired
    && s' == s.(refs := PutInto(TakeFrom(s.refs, c, Handle(k)), c, Handle(desired)))
  }

  function HandleValue(s: State, k: nat): Ptr { if Handle(k) in s.refs then s.refs[Handle(k)] else 0 }

  /** `compare_exchange_weak`, which may fail spuriously and then loads. */
  ghost predicate CompareExchange(s: State, s': State, t: nat, c: nat, expected: nat, desired: nat, spurious: bool)
  {
    && Runs(s, t, Idle)
    && var was := CellValue(s, c);
       s' == if was == HandleValue(s, expected) && !spurious
             then Goto(s, t, if was == 0 then Idle else DecStrong(was)).(
                    refs := PutInto(TakeFrom(s.refs, c, Flight(t)), c, Handle(desired)))
             else Goto(s, t, LoadStart(c))
  }

  // --- SharedPtr and WeakPtr ---

  ghost predicate New(s: State, s': State, k: nat, p: Ptr)
  {
    && Handle(k) !in s.refs && p != 0 && p !in s.heap
    && s' == s.(heap := s.heap[p := Block(1, 1, false)],
                refs := s.refs[Handle(k) := p], wrefs := s.wrefs[StrongSide(p) := p])
  }

  ghost predicate Copy(s: State, s': State, from: nat, k: nat)
  {
    && Handle(from) in s.refs && Handle(k) !in s.refs
    && var p := s.refs[Handle(from)];
       p in s.heap && s' == SetStrong(s, p, s.heap[p].strong + 1).(refs := s.refs[Handle(k) := p])
  }

  ghost predicate Drop(s: State, s': State, t: nat, k: nat)
  {
    && Runs(s, t, Idle) && Handle(k) in s.refs
    && s' == Goto(s, t, DecStrong(s.refs[Handle(k)])).(refs := Move(s.refs, Handle(k), Flight(t)))
  }

  /** A `WeakPtr` made from a `SharedPtr`. */
  ghost predicate MakeWeak(s: State, s': State, from: nat, k: nat)
  {
    && Handle(from) in s.refs && WeakHandle(k) !in s.wrefs
    && var p := s.refs[Handle(from)];
       p in s.heap && s' == SetWeak(s, p, s.heap[p].weak + 1).(wrefs := s.wrefs[WeakHandle(k) := p])
  }

  /** A `WeakPtr` made from a `WeakPtr` of another type. */
  ghost predicate CopyWeak(s: State, s': State, from: nat, k: nat)
  {
    && WeakHandle(from) in s.wrefs && WeakHandle(k) !in s.wrefs
    && var p := s.wrefs[WeakHandle(from)];
       p in s.heap && s' == SetWeak(s, p, s.heap[p].weak + 1).(wrefs := s.wrefs[WeakHandle(k) := p])
  }

  /** `WeakPtr::lock`: a strong unit unless the object is gone. */
  ghost predicate Lock(s: State, s': State, from: nat, k: nat)
  {
    && WeakHandle(from) in s.wrefs && Handle(k) !in s.refs
    && var p := s.wrefs[WeakHandle(from)];
       p in s.heap &&
       s' == if s.heap[p].strong > 0
             then SetStrong(s, p, s.heap[p].strong + 1).(refs := s.refs[Handle(k) := p]) else s
  }

  ghost predicate DropWeak(s: State, s': State, t: nat, k: nat)
  {
    && Runs(s, t, Idle) && WeakHandle(k) in s.wrefs
    && s' == Goto(s, t, DecWeak(s.wrefs[WeakHandle(k)])).(wrefs := Move(s.wrefs, WeakHandle(k), WeakFlight(t)))
  }

  // --- decrement_strong_count, dispose, decrement_weak_count ---

  ghost predicate DoDecStrong(s: State, s': State, t: nat, p: Ptr)
  {
    && Runs(s, t, DecStrong(p)) && p in s.heap && s.heap[p].strong > 0
    && s' == Goto(SetStrong(s, p, s.heap[p].strong - 1), t, if s.heap[p].strong == 1 then Dispose(p) else Idle).(
               refs := s.refs - {Flight(t)})
  }

  ghost predicate DoDispose(s: State, s': State, t: nat, p: Ptr)
  {
    && Runs(s, t, Dispose(p)) && p in s.heap && StrongSide(p) in s.wrefs
    && s' == Goto(s, t, DecWeak(p)).(heap := s.heap[p := s.heap[p].(disposed := true)],
                                     wrefs := Move(s.wrefs, StrongSide(p), WeakFlight(t)))
  }

  ghost predicate DoDecWeak(s: State, s': State, t: nat, p: Ptr)
  {
    && Runs(s, t, DecWeak(p)) && p in s.heap && s.heap[p].weak > 0
    && s' == Goto(SetWeak(s, p, s.heap[p].weak - 1), t, if s.heap[p].weak == 1 then Retire(p) else Idle).(
               wrefs := s.wrefs - {WeakFlight(t)})
  }

  // --- retire and bulk cleanup ---

  ghost predicate DoRetire(s: State, s': State, t: nat, p: Ptr)
  {
    && Runs(s, t, Retire(p))
    && var sl := s.slots[t];
       var pushed := sl.(retired := [p] + sl.retired);
       s' == s.(slots := s.slots[t :=
         if s.incremental then pushed.(pc := Work)
         else if sl.since + 1 >= CLEANUP_THRESHOLD then pushed.(pc := Scan(0, {}), since := 0)
         else pushed.(pc := Idle, since := sl.since + 1)])
  }

  ghost predicate ScanOne(s: State, s': State, t: nat, i: nat, found: set<Ptr>)
  {
    && Runs(s, t, Scan(i, found)) && i < |s.slots|
    && s' == Goto(s, t, Scan(i + 1, if s.slots[i].hazard == 0 then found else found + {s.slots[i].hazard}))
  }

  ghost predicate ScanEnd(s: State, s': State, t: nat, i: nat, found: set<Ptr>)
  {
    && Runs(s, t, Scan(i, found)) && i == |s.slots|
    && s' == s.(slots := s.slots[t := s.slots[t].(pc := Sweep(0, found), lastSlots := i)])
  }

  function Remove(l: seq<Ptr>, j: nat): seq<Ptr>
    requires j < |l|
  {
    l[..j] + l[j + 1..]
  }

  ghost predicate SweepOne(s: State, s': State, t: nat, j: nat, found: set<Ptr>)
  {
    && Runs(s, t, Sweep(j, found)) && j < |s.slots[t].retired|
    && var sl := s.slots[t];
       var p := sl.retired[j];
       s' == if p in found then Goto(s, t, Sweep(j + 1, found))
             else s.(heap := s.heap - {p}, slots := s.slots[t := sl.(retired := Remove(sl.retired, j))])
  }

  ghost predicate SweepEnd(s: State, s': State, t: nat, j: nat, found: set<Ptr>)
  {
    Runs(s, t, Sweep(j, found)) && j == |s.slots[t].retired| && s' == Goto(s, t, Idle)
  }

  // --- incremental reclamation ---

  /** The first half of `do_reclamation_work`: wait for a batch, or begin a new round. */
  ghost predicate BeginWork(s: State, s': State, t: nat)
  {
    && Runs(s, t, Work)
    && var sl := s.slots[t];
       var n := sl.numRetires + 1;
       s' == s.(slots := s.slots[t :=
         if sl.cursor.AtSlot? then sl.(numRetires := n, pc := Eject(2))
         else if n < 2 * sl.numHazards then sl.(numRetires := n, pc := Idle)
         else sl.(numRetires := 0, numHazards := sl.nextNumHazards, nextNumHazards := 0,
                  cursor := AtSlot(0),
                  guarded := sl.nextGuarded, nextGuarded := {},
                  eligible := sl.eligible + sl.nextEligible, nextEligible := sl.retired, retired := [],
                  pc := Eject(2))])
  }

  ghost predicate EjectOne(s: State, s': State, t: nat, n: nat)
  {
    && Runs(s, t, Eject(n))
    && var sl := s.slots[t];
       s' == if n == 0 || sl.eligible == [] then Goto(s, t, Peek)
             else
               var p := sl.eligible[0];
               var rest := sl.(eligible := sl.eligible[1..], pc := Eject(n - 1));
               if p in sl.guarded then s.(slots := s.slots[t := rest.(retired := [p] + sl.retired)])
               else s.(heap := s.heap - {p}, slots := s.slots[t := rest])
  }

  ghost predicate PeekOne(s: State, s': State, t: nat)
  {
    && Runs(s, t, Peek) && s.slots[t].cursor.AtSlot? && s.slots[t].cursor.i < |s.slots|
    && var sl := s.slots[t];
       s' == s.(slots := s.slots[t := sl.(
               pc := Peeked, nextNumHazards := sl.nextNumHazards + 1,
               nextGuarded := sl.nextGuarded + {s.slots[sl.cursor.i].hazard})])
  }

  ghost predicate PeekNext(s: State, s': State, t: nat)
  {
    && Runs(s, t, Peeked) && s.slots[t].cursor.AtSlot?
    && var i := s.slots[t].cursor.i;
       s' == s.(slots := s.slots[t := s.slots[t].(pc := Idle, cursor := if i + 1 < |s.slots| then AtSlot(i + 1) else Done)])
  }

  // --- threads come, the mode is switched on once ---

  ghost predicate AppendSlot(s: State, s': State, hw: nat)
  {
    s' == s.(slots := s.slots + [NewSlot(hw)])
  }

  ghost predicate EnableIncremental(s: State, s': State)
  {
    !s.incremental && s' == s.(incremental := true)
  }

  datatype Step =
    | BeginLoadStep(t: nat, c: nat) | ReadCellStep(t: nat, c: nat) | PublishStep(t: nat, c: nat, r: Ptr)
    | ValidateStep(t: nat, c: nat, r: Ptr) | IncrementStep(t: nat, c: nat, r: Ptr, k: nat)
    | StoreStep(t: nat, c: nat, k: nat) | ExchangeStep(t: nat, c: nat, k: nat, k': nat)
    | CasStep(t: nat, c: nat, k: nat, k': nat, spurious: bool)
    | NewStep(k: nat, p: Ptr) | CopyStep(k: nat, k': nat) | DropStep(t: nat, k: nat)
    | MakeWeakStep(k: nat, k': nat) | CopyWeakStep(k: nat, k': nat) | LockStep(k: nat, k': nat)
    | DropWeakStep(t: nat, k: nat)
    | DecStrongStep(t: nat, p: Ptr) | DisposeStep(t: nat, p: Ptr) | DecWeakStep(t: nat, p: Ptr)
    | RetireStep(t: nat, p: Ptr)
    | ScanStep(t: nat, i: nat, found: set<Ptr>) | ScanEndStep(t: nat, i: nat, found: set<Ptr>)
    | SweepStep(t: nat, j: nat, found: set<Ptr>) | SweepEndStep(t: nat, j: nat, found: set<Ptr>)
    | WorkStep(t: nat) | EjectStep(t: nat, n: nat) | PeekStep(t: nat) | PeekNextStep(t: nat)
    | AppendSlotStep(hw: nat) | EnableStep

  ghost predicate NextStep(s: State, s': State, step: Step)
  {
    match step
    case BeginLoadStep(t, c) => BeginLoad(s, s', t, c)
    case ReadCellStep(t, c) => ReadCell(s, s', t, c)
    case PublishStep(t, c, r) => Publish(s, s', t, c, r)
    case ValidateStep(t, c, r) => Validate(s, s', t, c, r)
    case IncrementStep(t, c, r, k) => IncrementLoaded(s, s', t, c, r, k)
    case StoreStep(t, c, k) => Store(s, s', t, c, k)
    case ExchangeStep(t, c, k, k') => Exchange(s, s', t, c, k, k')
    case CasStep(t, c, k, k', spurious) => CompareExchange(s, s', t, c, k, k', spurious)
    case NewStep(k, p) => New(s, s', k, p)
    case CopyStep(k, k') => Copy(s, s', k, k')
    case DropStep(t, k) => Drop(s, s', t, k)
    case MakeWeakStep(k, k') => MakeWeak(s, s', k, k')
    case CopyWeakStep(k, k') => CopyWeak(s, s', k, k')
    case LockStep(k, k') => Lock(s, s', k, k')
    case DropWeakStep(t, k) => DropWeak(s, s', t, k)
    case DecStrongStep(t, p) => DoDecStrong(s, s', t, p)
    case DisposeStep(t, p) => DoDispose(s, s', t, p)
    case DecWeakStep(t, p) => DoDecWeak(s, s', t, p)
    case RetireStep(t, p) => DoRetire(s, s', t, p)
    case ScanStep(t, i, found) => ScanOne(s, s', t, i, found)
    case ScanEndStep(t, i, found) => ScanEnd(s, s', t, i, found)
    case SweepStep(t, j, found) => SweepOne(s, s', t, j, found)
    case SweepEndStep(t, j, found) => SweepEnd(s, s', t, j, found)
    case WorkStep(t) => BeginWork(s, s', t)
    case EjectStep(t, n) => EjectOne(s, s', t, n)
    case PeekStep(t) => PeekOne(s, s', t)
    case PeekNextStep(t) => PeekNext(s, s', t)
    case AppendSlotStep(hw) => AppendSlot(s, s', hw)
    case EnableStep => EnableIncremental(s, s')
  }

  ghost predicate Next(s: State, s': State) { exists step :: NextStep(s, s', step) }

  ghost predicate IsRun(run: seq<State>, hw: nat)
  {
    && |run| > 0 && Init(run[0], hw)
    && forall i :: 0 <= i < |run| - 1 ==> Next(run[i], run[i + 1])
  }

  // ---------------------------------------------------------------------------------------
  // Invariant, part 1: counts are the numbers of owners, and owners keep blocks alive.
  // ---------------------------------------------------------------------------------------

  ghost function Holders<O(!new)>(refs: map<O, Ptr>, p: Ptr): set<O>
  {
    set o | o in refs && refs[o] == p
  }

  lemma HoldersAdd<O(!new)>(refs: map<O, Ptr>, o: O, p: Ptr)
    requires o !in refs
    ensures forall q :: |Holders(refs[o := p], q)| == |Holders(refs, q)| + if q == p then 1 else 0
  {
    forall q ensures |Holders(refs[o := p], q)| == |Holders(refs, q)| + if q == p then 1 else 0 {
      assert Holders(refs[o := p], q) == Holders(refs, q) + if q == p then {o} else {};
    }
  }

  lemma HoldersDrop<O(!new)>(refs: map<O, Ptr>, o: O)
    requires o in refs
    ensures forall q :: |Holders(refs, q)| == |Holders(refs - {o}, q)| + if q == refs[o] then 1 else 0
  {
    forall q ensures |Holders(refs, q)| == |Holders(refs - {o}, q)| + if q == refs[o] then 1 else 0 {
      assert Holders(refs, q) == Holders(refs - {o}, q) + if q == refs[o] then {o} else {};
    }
  }

  lemma HoldersMove<O(!new)>(refs: map<O, Ptr>, a: O, b: O)
    requires a in refs && b !in refs
    ensures forall q :: |Holders(Move(refs, a, b), q)| == |Holders(refs, q)|
  {
    HoldersDrop(refs, a);
    HoldersAdd(refs - {a}, b, refs[a]);
  }

  /** A unit of `p` exists, so its count is positive. */
  lemma HolderCounts<O(!new)>(refs: map<O, Ptr>, o: O)
    requires o in refs
    ensures |Holders(refs, refs[o])| > 0
  {
    assert o in Holders(refs, refs[o]);
  }

  ghost predicate Live(s: State)
  {
    && 0 !in s.heap
    && (forall o :: o in s.refs ==> s.refs[o] in s.heap)
    && (forall o :: o in s.wrefs ==> s.wrefs[o] in s.heap)
  }

  ghost predicate Counts(s: State)
  {
    forall p :: p in s.heap ==>
      s.heap[p].strong == |Holders(s.refs, p)| && s.heap[p].weak == |Holders(s.wrefs, p)|
  }

  /** A thread has a unit in flight exactly while it is about to drop it. */
  ghost predicate Flights(s: State)
  {
    && (forall t: nat :: Flight(t) in s.refs ==> t < |s.slots| && s.slots[t].pc == DecStrong(s.refs[Flight(t)]))
    && (forall t :: 0 <= t < |s.slots| && s.slots[t].pc.DecStrong? ==> Flight(t) in s.refs)
    && (forall t: nat :: WeakFlight(t) in s.wrefs ==> t < |s.slots| && s.slots[t].pc == DecWeak(s.wrefs[WeakFlight(t)]))
    && (forall t :: 0 <= t < |s.slots| && s.slots[t].pc.DecWeak? ==> WeakFlight(t) in s.wrefs)
  }

  /** The strong owners hold one weak unit until the last of them has disposed of the object. */
  ghost predicate Sides(s: State)
  {
    && (forall p :: StrongSide(p) in s.wrefs ==> s.wrefs[StrongSide(p)] == p)
    && (forall p :: p in s.heap && s.heap[p].strong > 0 ==> StrongSide(p) in s.wrefs)
    && (forall p :: p in s.heap ==> (s.heap[p].disposed <==> StrongSide(p) !in s.wrefs))
    && (forall t :: 0 <= t < |s.slots| && s.slots[t].pc.Dispose? ==>
          var p := s.slots[t].pc.p;
          p in s.heap && s.heap[p].strong == 0 && StrongSide(p) in s.wrefs)
    && (forall t, u ::
          0 <= t < |s.slots| && 0 <= u < |s.slots| && s.slots[t].pc.Dispose? && s.slots[t].pc == s.slots[u].pc ==>
          t == u)
  }

  ghost predicate Owners(s: State) { Live(s) && Counts(s) && Flights(s) && Sides(s) }

  ghost predicate Unit(pc: PC) { pc.DecStrong? || pc.DecWeak? || pc.Dispose? }

  /** Thread `t` moves on and neither has nor gets a unit to drop; nothing else but slots changes. */
  ghost predicate Quiet(s: State, s': State)
  {
    && s'.heap == s.heap && s'.refs == s.refs && s'.wrefs == s.wrefs && |s.slots| <= |s'.slots|
    && (forall u :: 0 <= u < |s.slots| ==>
          s'.slots[u].pc == s.slots[u].pc || (!Unit(s'.slots[u].pc) && !Unit(s.slots[u].pc)))
    && (forall u :: |s.slots| <= u < |s'.slots| ==> !Unit(s'.slots[u].pc))
  }

  lemma QuietOwners(s: State, s': State)
    requires Owners(s) && Quiet(s, s')
    ensures Owners(s')
  {
  }

  /** A block without units may go. */
  lemma DestroyOwners(s: State, s': State, p: Ptr)
    requires Owners(s) && p in s.heap && s.heap[p].weak == 0
    requires Quiet(s, s'.(heap := s.heap)) && s'.heap == s.heap - {p}
    ensures Owners(s')
  {
    NoUnits(s, p);
  }

  /** A block whose weak count is zero has no owner of any kind. */
  lemma NoUnits(s: State, p: Ptr)
    requires Owners(s) && p in s.heap && s.heap[p].weak == 0
    ensures forall o :: o in s.refs ==> s.refs[o] != p
    ensures forall o :: o in s.wrefs ==> s.wrefs[o] != p
    ensures s.heap[p].strong == 0
  {
    forall o | o in s.wrefs ensures s.wrefs[o] != p { HolderCounts(s.wrefs, o); }
    forall o | o in s.refs ensures s.refs[o] != p {
      HolderCounts(s.refs, o);
    }
  }

  // --- each step that touches counts or owners ---

  lemma GainStrong(s: State, s': State, p: Ptr, o: Owner)
    requires Owners(s) && p in s.heap && s.heap[p].strong > 0 && o !in s.refs && o.Handle?
    requires Quiet(s, s'.(heap := s.heap, refs := s.refs))
    requires s'.heap == s.heap[p := s.heap[p].(strong := s.heap[p].strong + 1)] && s'.refs == s.refs[o := p]
    ensures Owners(s')
  {
    HoldersAdd(s.refs, o, p);
  }

  lemma GainWeak(s: State, s': State, p: Ptr, o: WeakOwner)
    requires Owners(s) && p in s.heap && o !in s.wrefs && o.WeakHandle?
    requires s' == s.(heap := s.heap[p := s.heap[p].(weak := s.heap[p].weak + 1)], wrefs := s.wrefs[o := p])
    ensures Owners(s')
  {
    hide Live, Counts, Flights, Sides;
    GainWeakCounts(s, s', p, o);
    GainWeakSides(s, s', p, o);
  }

  lemma GainWeakCounts(s: State, s': State, p: Ptr, o: WeakOwner)
    requires Live(s) && Counts(s) && p in s.heap && o !in s.wrefs
    requires s' == s.(heap := s.heap[p := s.heap[p].(weak := s.heap[p].weak + 1)], wrefs := s.wrefs[o := p])
    ensures Live(s') && Counts(s')
  {
    HoldersAdd(s.wrefs, o, p);
  }

  lemma GainWeakSides(s: State, s': State, p: Ptr, o: WeakOwner)
    requires Live(s) && Flights(s) && Sides(s) && p in s.heap && o !in s.wrefs && o.WeakHandle?
    requires s' == s.(heap := s.heap[p := s.heap[p].(weak := s.heap[p].weak + 1)], wrefs := s.wrefs[o := p])
    ensures Flights(s') && Sides(s')
  {
  }

  lemma NewOwners(s: State, s': State, k: nat, p: Ptr)
    requires Owners(s) && New(s, s', k, p)
    ensures Owners(s')
  {
    HoldersAdd(s.refs, Handle(k), p);
    HoldersAdd(s.wrefs, StrongSide(p), p);
    assert Holders(s.refs, p) == {} && Holders(s.wrefs, p) == {};
  }

  /** Units change hands but not in number; at most one lands in flight. */
  ghost predicate Reshuffle(s: State, s': State)
  {
    && s'.heap == s.heap && s'.wrefs == s.wrefs && |s'.slots| == |s.slots|
    && (forall q :: |Holders(s'.refs, q)| == |Holders(s.refs, q)|)
    && (forall o :: o in s'.refs ==> s'.refs[o] in s.heap)
  }

  lemma ReshuffleOwners(s: State, s': State, t: nat)
    requires Owners(s) && Reshuffle(s, s') && t < |s.slots| && !Unit(s.slots[t].pc)
    requires forall u :: 0 <= u < |s.slots| && u != t ==> s'.slots[u] == s.slots[u]
    requires forall u :: u != t ==> (Flight(u) in s'.refs <==> Flight(u) in s.refs)
    requires forall u :: Flight(u) in s'.refs && u != t ==> s'.refs[Flight(u)] == s.refs[Flight(u)]
    requires if Flight(t) in s'.refs then s'.slots[t].pc == DecStrong(s'.refs[Flight(t)]) else !Unit(s'.slots[t].pc)
    ensures Owners(s')
  {
  }

  lemma SwapCell(s: State, c: nat, to: Owner, desired: nat) returns (refs: map<Owner, Ptr>)
    requires Owners(s) && to !in s.refs && !to.Cell? && to != Handle(desired)
    ensures refs == PutInto(TakeFrom(s.refs, c, to), c, Handle(desired))
    ensures forall q :: |Holders(refs, q)| == |Holders(s.refs, q)|
    ensures forall o :: o in refs ==> refs[o] in s.heap
    ensures to in refs <==> Cell(c) in s.refs
    ensures to in refs ==> refs[to] == s.refs[Cell(c)]
    ensures forall u :: Flight(u) != to ==> (Flight(u) in refs <==> Flight(u) in s.refs)
    ensures forall u :: Flight(u) != to && Flight(u) in refs ==> refs[Flight(u)] == s.refs[Flight(u)]
  {
    var mid := TakeFrom(s.refs, c, to);
    if Cell(c) in s.refs { HoldersMove(s.refs, Cell(c), to); }
    assert Cell(c) !in mid;
    refs := PutInto(mid, c, Handle(desired));
    if Handle(desired) in mid { HoldersMove(mid, Handle(desired), Cell(c)); }
  }

  lemma StoreOwners(s: State, s': State, t: nat, c: nat, desired: nat)
    requires Owners(s) && Store(s, s', t, c, desired)
    ensures Owners(s')
  {
    assert Flight(t) !in s.refs;
    var refs := SwapCell(s, c, Flight(t), desired);
    ReshuffleOwners(s, s', t);
  }

  lemma ExchangeOwners(s: State, s': State, t: nat, c: nat, desired: nat, k: nat)
    requires Owners(s) && Exchange(s, s', t, c, desired, k)
    ensures Owners(s')
  {
    var refs := SwapCell(s, c, Handle(k), desired);
    ReshuffleOwners(s, s', t);
  }

  lemma DropOwners(s: State, s': State, t: nat, k: nat)
    requires Owners(s) && Drop(s, s', t, k)
    ensures Owners(s')
  {
    assert Flight(t) !in s.refs;
    HoldersMove(s.refs, Handle(k), Flight(t));
    ReshuffleOwners(s, s', t);
  }

  lemma DropWeakOwners(s: State, s': State, t: nat, k: nat)
    requires Owners(s) && DropWeak(s, s', t, k)
    ensures Owners(s')
  {
    assert WeakFlight(t) !in s.wrefs;
    HoldersMove(s.wrefs, WeakHandle(k), WeakFlight(t));
    assert Counts(s');
    DropWeakFlights(s, s', t, k);
  }

  lemma DropWeakFlights(s: State, s': State, t: nat, k: nat)
    requires Flights(s) && DropWeak(s, s', t, k)
    ensures Flights(s')
  {
  }

  lemma DecStrongOwners(s: State, s': State, t: nat, p: Ptr)
    requires Owners(s) && DoDecStrong(s, s', t, p)
    ensures Owners(s')
  {
    assert Counts(s') by { HoldersDrop(s.refs, Flight(t)); }
    DecStrongFlights(s, s', t, p);
    DecStrongSides(s, s', t, p);
  }

  lemma DecStrongFlights(s: State, s': State, t: nat, p: Ptr)
    requires Flights(s) && DoDecStrong(s, s', t, p)
    ensures Flights(s')
  {
  }

  lemma DecStrongSides(s: State, s': State, t: nat, p: Ptr)
    requires Sides(s) && DoDecStrong(s, s', t, p)
    ensures Sides(s')
  {
  }

  lemma DisposeOwners(s: State, s': State, t: nat, p: Ptr)
    requires Owners(s) && DoDispose(s, s', t, p)
    ensures Owners(s')
  {
    assert WeakFlight(t) !in s.wrefs;
    assert Counts(s') by { HoldersMove(s.wrefs, StrongSide(p), WeakFlight(t)); }
    DisposeFlights(s, s', t, p);
    DisposeSides(s, s', t, p);
  }

  lemma DisposeFlights(s: State, s': State, t: nat, p: Ptr)
    requires Flights(s) && DoDispose(s, s', t, p) && s.wrefs[StrongSide(p)] == p
    ensures Flights(s')
  {
  }

  lemma DisposeSides(s: State, s': State, t: nat, p: Ptr)
    requires Sides(s) && DoDispose(s, s', t, p)
    ensures Sides(s')
  {
  }

  lemma DecWeakOwners(s: State, s': State, t: nat, p: Ptr)
    requires Owners(s) && DoDecWeak(s, s', t, p)
    ensures Owners(s')
  {
    assert Counts(s') by { HoldersDrop(s.wrefs, WeakFlight(t)); }
    DecWeakFlights(s, s', t, p);
    DecWeakSides(s, s', t, p);
  }

  lemma DecWeakFlights(s: State, s': State, t: nat, p: Ptr)
    requires Flights(s) && DoDecWeak(s, s', t, p)
    ensures Flights(s')
  {
  }

  lemma DecWeakSides(s: State, s': State, t: nat, p: Ptr)
    requires Sides(s) && DoDecWeak(s, s', t, p)
    ensures Sides(s')
  {
  }

  // ---------------------------------------------------------------------------------------
  // Invariant, part 2: every dead block waits for destruction in exactly one place.
  // ---------------------------------------------------------------------------------------

  /** The dead blocks that the thread of this slot is responsible for. */
  ghost function Bag(sl: Slot): multiset<Ptr>
  {
    multiset(sl.retired) + multiset(sl.nextEligible) + multiset(sl.eligible)
    + if sl.pc.Retire? then multiset{sl.pc.p} else multiset{}
  }

  ghost function BagsOf(s: State): seq<multiset<Ptr>>
  {
    seq(|s.slots|, t requires 0 <= t < |s.slots| => Bag(s.slots[t]))
  }

  ghost predicate Dead(heap: map<Ptr, Block>, p: Ptr) { p in heap && heap[p].weak == 0 }

  /** How often bag `t` holds `p`. */
  ghost function Copies(bags: seq<multiset<Ptr>>, t: nat, p: Ptr): nat
    requires t < |bags|
  {
    bags[t][p]
  }

  ghost predicate BagsOk(heap: map<Ptr, Block>, bags: seq<multiset<Ptr>>)
  {
    && (forall t: nat, p :: t < |bags| && Copies(bags, t, p) > 0 ==> Dead(heap, p) && Copies(bags, t, p) == 1)
    && (forall t: nat, u: nat, p ::
          t < |bags| && u < |bags| && Copies(bags, t, p) > 0 && Copies(bags, u, p) > 0 ==> t == u)
  }

  ghost predicate NoLeak(heap: map<Ptr, Block>, bags: seq<multiset<Ptr>>)
  {
    forall p :: Dead(heap, p) ==> exists t: nat :: t < |bags| && Copies(bags, t, p) > 0
  }

  ghost predicate Bags(s: State) { BagsOk(s.heap, BagsOf(s)) && NoLeak(s.heap, BagsOf(s)) }

  /** Slots may come, and bags may be rearranged inside; which blocks are dead does not change. */
  lemma BagsFrame(s: State, s': State)
    requires Bags(s) && |s.slots| <= |s'.slots|
    requires forall t :: 0 <= t < |s.slots| ==> Bag(s'.slots[t]) == Bag(s.slots[t])
    requires forall t :: |s.slots| <= t < |s'.slots| ==> Bag(s'.slots[t]) == multiset{}
    requires forall p :: Dead(s.heap, p) <==> Dead(s'.heap, p)
    ensures Bags(s')
  {
    BagsFrameSeq(s.heap, BagsOf(s), s'.heap, BagsOf(s'));
  }

  lemma BagsFrameSeq(heap: map<Ptr, Block>, bags: seq<multiset<Ptr>>, heap': map<Ptr, Block>, bags': seq<multiset<Ptr>>)
    requires BagsOk(heap, bags) && NoLeak(heap, bags) && bags <= bags'
    requires forall t :: |bags| <= t < |bags'| ==> bags'[t] == multiset{}
    requires forall p :: Dead(heap, p) <==> Dead(heap', p)
    ensures BagsOk(heap', bags') && NoLeak(heap', bags')
  {
    assert forall t: nat, p {:trigger Copies(bags', t, p)} :: t < |bags| ==> Copies(bags', t, p) == Copies(bags, t, p);
    forall p | Dead(heap', p) ensures exists t: nat :: t < |bags'| && Copies(bags', t, p) > 0 {
      var t: nat :| t < |bags| && Copies(bags, t, p) > 0;
      assert Copies(bags', t, p) > 0;
    }
  }

  /** The last weak unit is gone: the block enters the bag of the thread that dropped it. */
  lemma BagGrows(s: State, s': State, t: nat, p: Ptr)
    requires Bags(s) && t < |s.slots| && !Dead(s.heap, p) && Dead(s'.heap, p)
    requires |s'.slots| == |s.slots| && Bag(s'.slots[t]) == Bag(s.slots[t]) + multiset{p}
    requires forall u :: 0 <= u < |s.slots| && u != t ==> s'.slots[u] == s.slots[u]
    requires forall q :: q != p ==> (Dead(s.heap, q) <==> Dead(s'.heap, q))
    ensures Bags(s')
  {
    var bags := BagsOf(s);
    assert BagsOf(s') == bags[t := bags[t] + multiset{p}];
    BagGrowsSeq(s.heap, bags, s'.heap, t, p);
  }

  lemma BagGrowsSeq(heap: map<Ptr, Block>, bags: seq<multiset<Ptr>>, heap': map<Ptr, Block>, t: nat, p: Ptr)
    requires BagsOk(heap, bags) && NoLeak(heap, bags) && t < |bags| && !Dead(heap, p) && Dead(heap', p)
    requires forall q :: q != p ==> (Dead(heap, q) <==> Dead(heap', q))
    ensures var bags' := bags[t := bags[t] + multiset{p}]; BagsOk(heap', bags') && NoLeak(heap', bags')
  {
    var bags' := bags[t := bags[t] + multiset{p}];
    assert forall u: nat, q {:trigger Copies(bags', u, q)} ::
      u < |bags| ==> Copies(bags', u, q) == Copies(bags, u, q) + if u == t && q == p then 1 else 0;
    forall q | Dead(heap', q) ensures exists u: nat :: u < |bags'| && Copies(bags', u, q) > 0 {
      if q == p {
        assert Copies(bags', t, p) > 0;
      } else {
        var u: nat :| u < |bags| && Copies(bags, u, q) > 0;
        assert Copies(bags', u, q) > 0;
      }
    }
  }

  /** A dead block is destroyed and leaves the bag it was in. */
  lemma BagShrinks(s: State, s': State, t: nat, p: Ptr)
    requires Bags(s) && t < |s.slots| && p in Bag(s.slots[t]) && s'.heap == s.heap - {p}
    requires |s'.slots| == |s.slots| && Bag(s'.slots[t]) == Bag(s.slots[t]) - multiset{p}
    requires forall u :: 0 <= u < |s.slots| && u != t ==> s'.slots[u] == s.slots[u]
    ensures Bags(s')
  {
    var bags := BagsOf(s);
    assert BagsOf(s') == bags[t := bags[t] - multiset{p}];
    BagShrinksSeq(s.heap, bags, t, p);
  }

  lemma BagShrinksSeq(heap: map<Ptr, Block>, bags: seq<multiset<Ptr>>, t: nat, p: Ptr)
    requires BagsOk(heap, bags) && NoLeak(heap, bags) && t < |bags| && p in bags[t]
    ensures var bags' := bags[t := bags[t] - multiset{p}]; BagsOk(heap - {p}, bags') && NoLeak(heap - {p}, bags')
  {
    var bags' := bags[t := bags[t] - multiset{p}];
    assert Copies(bags, t, p) == 1;
    assert forall u: nat, q {:trigger Copies(bags', u, q)} ::
      u < |bags| ==> Copies(bags', u, q) == Copies(bags, u, q) - if u == t && q == p then 1 else 0;
    forall q | Dead(heap - {p}, q) ensures exists u: nat :: u < |bags'| && Copies(bags', u, q) > 0 {
      assert Dead(heap, q);
      var u: nat :| u < |bags| && Copies(bags, u, q) > 0;
      assert Copies(bags', u, q) > 0;
    }
  }

  lemma RemoveBag(l: seq<Ptr>, j: nat)
    requires j < |l|
    ensures multiset(Remove(l, j)) == multiset(l) - multiset{l[j]}
    ensures forall p :: p in Remove(l, j) ==> p in l
    ensures l[j] in multiset(l)
  {
    assert l == l[..j] + [l[j]] + l[j + 1..];
  }

  // ---------------------------------------------------------------------------------------
  // Invariant, part 3: a validated hazard keeps its block from being destroyed.
  // ---------------------------------------------------------------------------------------

  /** The round of this slot's reclaimer has read the hazard of slot `t`. */
  ghost predicate Passed(sl: Slot, t: nat)
  {
    sl.cursor.Done? || t < sl.cursor.i || (t == sl.cursor.i && sl.pc.Peeked?)
  }

  /** Whoever holds `r` among its dead blocks has seen, or will yet see, the hazard of slot `t`. */
  ghost predicate Covered(sl: Slot, t: nat, r: Ptr)
  {
    && (r in sl.retired && sl.pc.Scan? && t < sl.pc.i ==> r in sl.pc.found)
    && (r in sl.retired && sl.pc.Sweep? ==> r in sl.pc.found)
    && (r in sl.eligible ==> r in sl.guarded)
    && ((r in sl.eligible || r in sl.nextEligible) && Passed(sl, t) ==> r in sl.nextGuarded)
  }

  ghost predicate Hazards(s: State)
  {
    && (forall t :: 0 <= t < |s.slots| && s.slots[t].pc.LoadCheck? ==> s.slots[t].hazard == s.slots[t].pc.r)
    && (forall t :: 0 <= t < |s.slots| && s.slots[t].pc.LoadIncrement? ==>
          s.slots[t].hazard == s.slots[t].pc.r && s.slots[t].pc.r in s.heap)
    && (forall t, u :: 0 <= t < |s.slots| && 0 <= u < |s.slots| && s.slots[t].pc.LoadIncrement? ==>
          Covered(s.slots[u], t, s.slots[t].pc.r))
  }

  /** With `n` slots, the cursor of a reclaimer at work names a slot, and a protected pointer is not null. */
  ghost predicate CursorOk(sl: Slot, n: nat)
  {
    && (sl.cursor.AtSlot? ==> sl.cursor.i < n)
    && (sl.pc.Eject? || sl.pc.Peek? || sl.pc.Peeked? ==> sl.cursor.AtSlot?)
    && (sl.pc.LoadProtect? || sl.pc.LoadCheck? ==> sl.pc.r != 0)
    && (sl.pc.Scan? ==> sl.pc.i <= n)
    && (sl.pc.Sweep? ==> sl.pc.j <= |sl.retired|)
  }

  ghost predicate Cursors(s: State)
  {
    forall t :: 0 <= t < |s.slots| ==> CursorOk(s.slots[t], |s.slots|)
  }

  ghost predicate Inv(s: State) { Owners(s) && Bags(s) && Hazards(s) && Cursors(s) }

  /** Only the program counter of `t` changes in the slots, and not to or from a scan or a validated load. */
  ghost predicate PlainPc(pc: PC)
  {
    !pc.LoadCheck? && !pc.LoadIncrement? && (pc.LoadProtect? ==> pc.r != 0) && !pc.Scan? && !pc.Sweep? && !pc.Eject? && !pc.Peek? && !pc.Peeked?
  }

  lemma PlainHazards(s: State, s': State, t: nat)
    requires Hazards(s) && Cursors(s) && t < |s.slots|
    requires |s'.slots| == |s.slots| && s'.slots == s.slots[t := s.slots[t].(pc := s'.slots[t].pc)]
    requires PlainPc(s'.slots[t].pc)
    requires forall p :: p in s.heap ==> p in s'.heap
    ensures Hazards(s') && Cursors(s')
  {
  }

  lemma SameSlotsHazards(s: State, s': State)
    requires Hazards(s) && Cursors(s) && s'.slots == s.slots
    requires forall p :: p in s.heap ==> p in s'.heap
    ensures Hazards(s') && Cursors(s')
  {
  }

  // --- loads ---

  lemma PublishKeeps(s: State, s': State, t: nat, c: nat, r: Ptr)
    requires Inv(s) && Publish(s, s', t, c, r)
    ensures Inv(s')
  {
    assert Owners(s') by { QuietOwners(s, s'); }
    assert Bags(s') by { BagsFrame(s, s'); }
    PublishHazards(s, s', t, c, r);
  }

  lemma PublishHazards(s: State, s': State, t: nat, c: nat, r: Ptr)
    requires Hazards(s) && Cursors(s) && Publish(s, s', t, c, r) && s'.heap == s.heap
    ensures Hazards(s') && Cursors(s')
  {
  }

  /** A block that some cell holds is in nobody's bag. */
  lemma HeldIsNotDead(s: State, o: Owner)
    requires Owners(s) && Bags(s) && o in s.refs
    ensures !Dead(s.heap, s.refs[o])
    ensures forall u :: 0 <= u < |s.slots| ==> s.refs[o] !in Bag(s.slots[u])
  {
    HolderCounts(s.refs, o);
    HolderCounts(s.wrefs, StrongSide(s.refs[o]));
    forall u | 0 <= u < |s.slots| ensures s.refs[o] !in Bag(s.slots[u]) { assert Copies(BagsOf(s), u, s.refs[o]) == Bag(s.slots[u])[s.refs[o]]; }
  }

  lemma ValidateKeeps(s: State, s': State, t: nat, c: nat, r: Ptr)
    requires Inv(s) && Validate(s, s', t, c, r)
    ensures Inv(s')
  {
    assert Owners(s') by { QuietOwners(s, s'); }
    assert Bags(s') by { BagsFrame(s, s'); }
    assert r != 0;
    if CellValue(s, c) == r {
      HeldIsNotDead(s, Cell(c));
      forall u | 0 <= u < |s.slots| ensures NotListed(s.slots[u], r) { NotInLists(s.slots[u], r); }
      ValidatedHazards(s, s', t, c, r);
    } else {
      PlainHazards(s, s', t);
    }
  }

  ghost predicate NotListed(sl: Slot, r: Ptr)
  {
    r !in sl.retired && r !in sl.eligible && r !in sl.nextEligible
  }

  lemma ValidatedHazards(s: State, s': State, t: nat, c: nat, r: Ptr)
    requires Hazards(s) && Cursors(s) && Runs(s, t, LoadCheck(c, r)) && r in s.heap
    requires forall u :: 0 <= u < |s.slots| ==> NotListed(s.slots[u], r)
    requires s' == Goto(s, t, LoadIncrement(c, r))
    ensures Hazards(s') && Cursors(s')
  {
  }

  lemma NotInLists(sl: Slot, r: Ptr)
    requires r !in Bag(sl)
    ensures NotListed(sl, r)
  {
  }

  // ---------------------------------------------------------------------------------------
  // Every step keeps the invariant.
  // ---------------------------------------------------------------------------------------

  /** Thread `t` only moves its program counter. */
  lemma PlainKeeps(s: State, s': State, t: nat)
    requires Inv(s) && t < |s.slots| && |s'.slots| == |s.slots|
    requires s' == s.(slots := s.slots[t := s.slots[t].(pc := s'.slots[t].pc)])
    requires PlainPc(s'.slots[t].pc) && !Unit(s.slots[t].pc) && !Unit(s'.slots[t].pc)
    requires !s.slots[t].pc.Retire? && !s'.slots[t].pc.Retire?
    ensures Inv(s')
  {
    QuietOwners(s, s');
    BagsFrame(s, s');
    PlainHazards(s, s', t);
  }

  /** Counts or owners change, `t` moves at most its program counter, nothing dies or is destroyed. */
  lemma OwnersKeeps(s: State, s': State, t: nat)
    requires Inv(s) && Owners(s') && t < |s.slots| && |s'.slots| == |s.slots|
    requires s'.slots == s.slots[t := s.slots[t].(pc := s'.slots[t].pc)]
    requires s'.slots[t].pc == s.slots[t].pc || PlainPc(s'.slots[t].pc)
    requires !s.slots[t].pc.Retire? && !s'.slots[t].pc.Retire?
    requires forall p :: Dead(s.heap, p) <==> Dead(s'.heap, p)
    requires forall p :: p in s.heap ==> p in s'.heap
    ensures Inv(s')
  {
    BagsFrame(s, s');
    if s'.slots[t].pc == s.slots[t].pc {
      assert s'.slots == s.slots;
      SameSlotsHazards(s, s');
    } else {
      PlainHazards(s, s', t);
    }
  }

  lemma SameSlotsKeeps(s: State, s': State)
    requires Inv(s) && Owners(s') && s'.slots == s.slots
    requires forall p :: Dead(s.heap, p) <==> Dead(s'.heap, p)
    requires forall p :: p in s.heap ==> p in s'.heap
    ensures Inv(s')
  {
    BagsFrame(s, s');
    SameSlotsHazards(s, s');
  }

  lemma IncrementKeeps(s: State, s': State, t: nat, c: nat, r: Ptr, k: nat)
    requires Inv(s) && IncrementLoaded(s, s', t, c, r, k)
    ensures Inv(s')
  {
    if s.heap[r].strong > 0 {
      IncrementSucceeds(s, s', t, c, r, k);
    } else {
      PlainKeeps(s, s', t);
    }
  }

  lemma IncrementSucceeds(s: State, s': State, t: nat, c: nat, r: Ptr, k: nat)
    requires Inv(s) && IncrementLoaded(s, s', t, c, r, k) && s.heap[r].strong > 0
    ensures Inv(s')
  {
    hide Owners, Bags, Hazards, Cursors;
    IncrementOwners(s, s', t, c, r, k);
    assert s'.slots == s.slots[t := s.slots[t].(pc := Idle)];
    IncrementBags(s, s', t, c, r, k);
    PlainHazards(s, s', t);
  }

  lemma IncrementOwners(s: State, s': State, t: nat, c: nat, r: Ptr, k: nat)
    requires Owners(s) && IncrementLoaded(s, s', t, c, r, k) && s.heap[r].strong > 0
    ensures Owners(s')
  {
    GainStrong(s, s', r, Handle(k));
  }

  lemma IncrementBags(s: State, s': State, t: nat, c: nat, r: Ptr, k: nat)
    requires Bags(s) && IncrementLoaded(s, s', t, c, r, k) && s.heap[r].strong > 0
    ensures Bags(s')
  {
    BagsFrame(s, s');
  }

  lemma NewKeeps(s: State, s': State, k: nat, p: Ptr)
    requires Inv(s) && New(s, s', k, p)
    ensures Inv(s')
  {
    NewOwners(s, s', k, p);
    SameSlotsKeeps(s, s');
  }

  lemma CopyKeeps(s: State, s': State, from: nat, k: nat)
    requires Inv(s) && Copy(s, s', from, k)
    ensures Inv(s')
  {
    var p := s.refs[Handle(from)];
    HolderCounts(s.refs, Handle(from));
    GainStrong(s, s', p, Handle(k));
    SameSlotsKeeps(s, s');
  }

  lemma LockKeeps(s: State, s': State, from: nat, k: nat)
    requires Inv(s) && Lock(s, s', from, k)
    ensures Inv(s')
  {
    var p := s.wrefs[WeakHandle(from)];
    if s.heap[p].strong > 0 {
      GainStrong(s, s', p, Handle(k));
      SameSlotsKeeps(s, s');
    }
  }

  lemma MakeWeakKeeps(s: State, s': State, from: nat, k: nat)
    requires Inv(s) && MakeWeak(s, s', from, k)
    ensures Inv(s')
  {
    var p := s.refs[Handle(from)];
    HeldIsNotDead(s, Handle(from));
    GainWeak(s, s', p, WeakHandle(k));
    SameSlotsKeeps(s, s');
  }

  lemma CopyWeakKeeps(s: State, s': State, from: nat, k: nat)
    requires Inv(s) && CopyWeak(s, s', from, k)
    ensures Inv(s')
  {
    var p := s.wrefs[WeakHandle(from)];
    HolderCounts(s.wrefs, WeakHandle(from));
    GainWeak(s, s', p, WeakHandle(k));
    SameSlotsKeeps(s, s');
  }

  lemma DecWeakKeeps(s: State, s': State, t: nat, p: Ptr)
    requires Inv(s) && DoDecWeak(s, s', t, p)
    ensures Inv(s')
  {
    assert Owners(s') by { DecWeakOwners(s, s', t, p); }
    assert Hazards(s') && Cursors(s') by { PlainHazards(s, s', t); }
    DecWeakBags(s, s', t, p);
  }

  lemma DecWeakBags(s: State, s': State, t: nat, p: Ptr)
    requires Bags(s) && DoDecWeak(s, s', t, p)
    ensures Bags(s')
  {
    if s.heap[p].weak == 1 {
      BagGrows(s, s', t, p);
    } else {
      BagsFrame(s, s');
    }
  }

  // --- retiring and the bulk mode ---

  /** The lists of `t` may change inside its bag, but no thread starts or validates a load. */
  ghost predicate Inside(s: State, s': State, t: nat)
  {
    && t < |s.slots| && |s'.slots| == |s.slots| && s'.refs == s.refs && s'.wrefs == s.wrefs
    && s'.slots == s.slots[t := s'.slots[t]]
    && s'.slots[t].hazard == s.slots[t].hazard
    && !Unit(s.slots[t].pc) && !Unit(s'.slots[t].pc)
    && !s'.slots[t].pc.LoadProtect? && !s'.slots[t].pc.LoadCheck? && !s'.slots[t].pc.LoadIncrement?
  }

  /** From slot contents `sl` to `sl'`, no protection is lost. */
  ghost predicate KeepsCover(sl: Slot, sl': Slot)
  {
    forall u: nat, r: Ptr :: Covered(sl, u, r) ==> Covered(sl', u, r)
  }

  lemma InsideKeeps(s: State, s': State, t: nat)
    requires Inv(s) && Inside(s, s', t) && s'.heap == s.heap
    requires Bag(s'.slots[t]) == Bag(s.slots[t])
    requires CursorOk(s'.slots[t], |s.slots|) && KeepsCover(s.slots[t], s'.slots[t])
    ensures Inv(s')
  {
    QuietOwners(s, s');
    BagsFrame(s, s');
    InsideHazards(s, s', t);
  }

  lemma InsideHazards(s: State, s': State, t: nat)
    requires Hazards(s) && Cursors(s) && Inside(s, s', t)
    requires CursorOk(s'.slots[t], |s.slots|) && KeepsCover(s.slots[t], s'.slots[t])
    requires forall u :: 0 <= u < |s.slots| && s.slots[u].pc.LoadIncrement? ==> s.slots[u].pc.r in s'.heap
    ensures Hazards(s') && Cursors(s')
  {
  }

  /** Thread `t` destroys `p`, which no validated hazard protects. */
  lemma InsideDestroys(s: State, s': State, t: nat, p: Ptr)
    requires Inv(s) && Inside(s, s', t) && p in Bag(s.slots[t]) && s'.heap == s.heap - {p}
    requires Bag(s'.slots[t]) == Bag(s.slots[t]) - multiset{p}
    requires CursorOk(s'.slots[t], |s.slots|) && KeepsCover(s.slots[t], s'.slots[t])
    requires Unprotected(s, p)
    ensures Inv(s')
  {
    BagIsDead(s, t, p);
    DestroyOwners(s, s', p);
    BagShrinks(s, s', t, p);
    InsideHazards(s, s', t);
  }

  /** No thread holds a validated hazard on `p`. */
  ghost predicate Unprotected(s: State, p: Ptr)
  {
    forall u :: 0 <= u < |s.slots| && s.slots[u].pc.LoadIncrement? ==> s.slots[u].pc.r != p
  }

  lemma BagIsDead(s: State, t: nat, p: Ptr)
    requires Bags(s) && t < |s.slots| && p in Bag(s.slots[t])
    ensures Dead(s.heap, p) && Bag(s.slots[t])[p] == 1
  {
    assert Copies(BagsOf(s), t, p) == Bag(s.slots[t])[p];
  }

  lemma RetireKeeps(s: State, s': State, t: nat, p: Ptr)
    requires Inv(s) && DoRetire(s, s', t, p)
    ensures Inv(s')
  {
    RetireSlot(s.slots[t], s'.slots[t], p, |s.slots|);
    InsideKeeps(s, s', t);
  }

  lemma RetireSlot(sl: Slot, sl': Slot, p: Ptr, n: nat)
    requires CursorOk(sl, n) && sl.pc == Retire(p)
    requires sl' == sl.(retired := [p] + sl.retired, pc := sl'.pc, since := sl'.since)
    requires sl'.pc == Work || sl'.pc == Idle || sl'.pc == Scan(0, {})
    ensures CursorOk(sl', n) && KeepsCover(sl, sl') && Bag(sl') == Bag(sl)
  {
  }

  lemma ScanOneKeeps(s: State, s': State, t: nat, i: nat, found: set<Ptr>)
    requires Inv(s) && ScanOne(s, s', t, i, found)
    ensures Inv(s')
  {
    QuietOwners(s, s');
    BagsFrame(s, s');
    ScanOneHazards(s, s', t, i, found);
  }

  lemma ScanOneHazards(s: State, s': State, t: nat, i: nat, found: set<Ptr>)
    requires Hazards(s) && Cursors(s) && 0 !in s.heap && ScanOne(s, s', t, i, found)
    ensures Hazards(s') && Cursors(s')
  {
    forall u | 0 <= u < |s.slots| && s.slots[u].pc.LoadIncrement?
      ensures Covered(s'.slots[t], u, s.slots[u].pc.r)
    {
      assert Covered(s.slots[t], u, s.slots[u].pc.r);
      assert s.slots[u].hazard == s.slots[u].pc.r != 0;
    }
  }

  lemma ScanEndKeeps(s: State, s': State, t: nat, i: nat, found: set<Ptr>)
    requires Inv(s) && ScanEnd(s, s', t, i, found)
    ensures Inv(s')
  {
    QuietOwners(s, s');
    BagsFrame(s, s');
    ScanEndHazards(s, s', t, i, found);
  }

  lemma ScanEndHazards(s: State, s': State, t: nat, i: nat, found: set<Ptr>)
    requires Hazards(s) && Cursors(s) && ScanEnd(s, s', t, i, found)
    ensures Hazards(s') && Cursors(s')
  {
    forall u | 0 <= u < |s.slots| && s.slots[u].pc.LoadIncrement?
      ensures Covered(s'.slots[t], u, s.slots[u].pc.r)
    {
      assert Covered(s.slots[t], u, s.slots[u].pc.r);
    }
  }

  lemma SweepOneKeeps(s: State, s': State, t: nat, j: nat, found: set<Ptr>)
    requires Inv(s) && SweepOne(s, s', t, j, found)
    ensures Inv(s')
  {
    var p := s.slots[t].retired[j];
    SweepSlot(s.slots[t], s'.slots[t], j, found, |s.slots|);
    if p in found {
      InsideKeeps(s, s', t);
    } else {
      SweepUnprotected(s, s', t, j, found);
      InsideDestroys(s, s', t, p);
    }
  }

  lemma SweepSlot(sl: Slot, sl': Slot, j: nat, found: set<Ptr>, n: nat)
    requires CursorOk(sl, n) && sl.pc == Sweep(j, found) && j < |sl.retired|
    requires sl' == if sl.retired[j] in found then sl.(pc := Sweep(j + 1, found))
                    else sl.(retired := Remove(sl.retired, j))
    ensures CursorOk(sl', n) && KeepsCover(sl, sl')
    ensures sl.retired[j] in Bag(sl)
    ensures Bag(sl') == if sl.retired[j] in found then Bag(sl) else Bag(sl) - multiset{sl.retired[j]}
  {
    RemoveBag(sl.retired, j);
  }

  lemma SweepUnprotected(s: State, s': State, t: nat, j: nat, found: set<Ptr>)
    requires Inv(s) && SweepOne(s, s', t, j, found) && s.slots[t].retired[j] !in found
    ensures Unprotected(s, s.slots[t].retired[j])
  {
    forall u | 0 <= u < |s.slots| && s.slots[u].pc.LoadIncrement? ensures s.slots[u].pc.r != s.slots[t].retired[j] {
      assert Covered(s.slots[t], u, s.slots[u].pc.r);
    }
  }

  lemma SweepEndKeeps(s: State, s': State, t: nat, j: nat, found: set<Ptr>)
    requires Inv(s) && SweepEnd(s, s', t, j, found)
    ensures Inv(s')
  {
    PlainKeeps(s, s', t);
  }

  // --- the incremental mode ---

  lemma WorkKeeps(s: State, s': State, t: nat)
    requires Inv(s) && BeginWork(s, s', t)
    ensures Inv(s')
  {
    WorkSlot(s.slots[t], s'.slots[t], |s.slots|);
    InsideKeeps(s, s', t);
  }

  /** The scan that ends here began after everything in `eligible` and `nextEligible` was retired. */
  lemma WorkSlot(sl: Slot, sl': Slot, n: nat)
    requires CursorOk(sl, n) && sl.pc == Work && n > 0
    requires sl' == if sl.cursor.AtSlot? then sl.(numRetires := sl'.numRetires, pc := Eject(2))
                    else if sl'.pc == Idle then sl.(numRetires := sl'.numRetires, pc := Idle)
                    else sl'.(pc := Eject(2), cursor := AtSlot(0), hazard := sl.hazard,
                              guarded := sl.nextGuarded, nextGuarded := {},
                              eligible := sl.eligible + sl.nextEligible, nextEligible := sl.retired, retired := [])
    ensures CursorOk(sl', n) && KeepsCover(sl, sl') && Bag(sl') == Bag(sl)
  {
  }

  lemma EjectKeeps(s: State, s': State, t: nat, n: nat)
    requires Inv(s) && EjectOne(s, s', t, n)
    ensures Inv(s')
  {
    var sl := s.slots[t];
    if n == 0 || sl.eligible == [] || sl.eligible[0] in sl.guarded {
      EjectMoves(s, s', t, n);
    } else {
      EjectDestroys(s, s', t, n);
    }
  }

  lemma EjectMoves(s: State, s': State, t: nat, n: nat)
    requires Inv(s) && EjectOne(s, s', t, n)
    requires var sl := s.slots[t]; n == 0 || sl.eligible == [] || sl.eligible[0] in sl.guarded
    ensures Inv(s')
  {
    EjectSlot(s.slots[t], s'.slots[t], n, |s.slots|);
    InsideKeeps(s, s', t);
  }

  lemma EjectDestroys(s: State, s': State, t: nat, n: nat)
    requires Inv(s) && EjectOne(s, s', t, n) && n > 0 && s.slots[t].eligible != []
    requires s.slots[t].eligible[0] !in s.slots[t].guarded
    ensures Inv(s')
  {
    EjectSlot(s.slots[t], s'.slots[t], n, |s.slots|);
    EjectUnprotected(s, s', t, n);
    InsideDestroys(s, s', t, s.slots[t].eligible[0]);
  }

  lemma EjectSlot(sl: Slot, sl': Slot, n: nat, slots: nat)
    requires CursorOk(sl, slots) && sl.pc == Eject(n)
    requires sl' == if n == 0 || sl.eligible == [] then sl.(pc := Peek)
                    else
                      var rest := sl.(eligible := sl.eligible[1..], pc := Eject(n - 1));
                      if sl.eligible[0] in sl.guarded then rest.(retired := [sl.eligible[0]] + sl.retired) else rest
    ensures CursorOk(sl', slots) && KeepsCover(sl, sl')
    ensures n > 0 && sl.eligible != [] ==> sl.eligible[0] in Bag(sl)
    ensures Bag(sl') ==
              if n == 0 || sl.eligible == [] || sl.eligible[0] in sl.guarded then Bag(sl)
              else Bag(sl) - multiset{sl.eligible[0]}
  {
    if sl.eligible != [] { assert sl.eligible == [sl.eligible[0]] + sl.eligible[1..]; }
  }

  lemma EjectUnprotected(s: State, s': State, t: nat, n: nat)
    requires Inv(s) && EjectOne(s, s', t, n) && n > 0 && s.slots[t].eligible != []
    requires s.slots[t].eligible[0] !in s.slots[t].guarded
    ensures Unprotected(s, s.slots[t].eligible[0])
  {
    forall u | 0 <= u < |s.slots| && s.slots[u].pc.LoadIncrement? ensures s.slots[u].pc.r != s.slots[t].eligible[0] {
      assert Covered(s.slots[t], u, s.slots[u].pc.r);
    }
  }

  lemma PeekKeeps(s: State, s': State, t: nat)
    requires Inv(s) && PeekOne(s, s', t)
    ensures Inv(s')
  {
    QuietOwners(s, s');
    BagsFrame(s, s');
    PeekHazards(s, s', t);
  }

  lemma PeekHazards(s: State, s': State, t: nat)
    requires Hazards(s) && Cursors(s) && PeekOne(s, s', t)
    ensures Hazards(s') && Cursors(s')
  {
    forall u | 0 <= u < |s.slots| && s.slots[u].pc.LoadIncrement?
      ensures Covered(s'.slots[t], u, s.slots[u].pc.r)
    {
      assert Covered(s.slots[t], u, s.slots[u].pc.r);
    }
  }

  lemma PeekNextKeeps(s: State, s': State, t: nat)
    requires Inv(s) && PeekNext(s, s', t)
    ensures Inv(s')
  {
    QuietOwners(s, s');
    BagsFrame(s, s');
    PeekNextHazards(s, s', t);
  }

  lemma PeekNextHazards(s: State, s': State, t: nat)
    requires Hazards(s) && Cursors(s) && PeekNext(s, s', t)
    ensures Hazards(s') && Cursors(s')
  {
    forall u | 0 <= u < |s.slots| && s.slots[u].pc.LoadIncrement?
      ensures Covered(s'.slots[t], u, s.slots[u].pc.r)
    {
      assert Covered(s.slots[t], u, s.slots[u].pc.r);
    }
  }

  lemma AppendKeeps(s: State, s': State, hw: nat)
    requires Inv(s) && AppendSlot(s, s', hw)
    ensures Inv(s')
  {
    QuietOwners(s, s');
    BagsFrame(s, s');
    AppendHazards(s, s', hw);
  }

  lemma AppendHazards(s: State, s': State, hw: nat)
    requires Hazards(s) && Cursors(s) && AppendSlot(s, s', hw)
    ensures Hazards(s') && Cursors(s')
  {
  }

  lemma EnableKeeps(s: State, s': State)
    requires Inv(s) && EnableIncremental(s, s')
    ensures Inv(s')
  {
    QuietOwners(s, s');
    SameSlotsKeeps(s, s');
  }

  // ---------------------------------------------------------------------------------------
  // The theorems
  // ---------------------------------------------------------------------------------------

  lemma InitInv(s: State, hw: nat)
    requires Init(s, hw)
    ensures Inv(s)
  {
  }

  lemma LoadStepKeeps(s: State, s': State, step: Step)
    requires Inv(s) && NextStep(s, s', step)
    requires step.BeginLoadStep? || step.ReadCellStep? || step.PublishStep? || step.ValidateStep? || step.IncrementStep?
    ensures Inv(s')
  {
    match step
    case BeginLoadStep(t, c) => PlainKeeps(s, s', t);
    case ReadCellStep(t, c) => PlainKeeps(s, s', t);
    case PublishStep(t, c, r) => PublishKeeps(s, s', t, c, r);
    case ValidateStep(t, c, r) => ValidateKeeps(s, s', t, c, r);
    case IncrementStep(t, c, r, k) => IncrementKeeps(s, s', t, c, r, k);
  }

  lemma StoreKeeps(s: State, s': State, t: nat, c: nat, k: nat)
    requires Inv(s) && Store(s, s', t, c, k)
    ensures Inv(s')
  {
    assert Owners(s') by { StoreOwners(s, s', t, c, k); }
    OwnersKeeps(s, s', t);
  }

  lemma ExchangeKeeps(s: State, s': State, t: nat, c: nat, k: nat, k': nat)
    requires Inv(s) && Exchange(s, s', t, c, k, k')
    ensures Inv(s')
  {
    assert Owners(s') by { ExchangeOwners(s, s', t, c, k, k'); }
    SameSlotsKeeps(s, s');
  }

  lemma CasKeeps(s: State, s': State, t: nat, c: nat, expected: nat, desired: nat, spurious: bool)
    requires Inv(s) && CompareExchange(s, s', t, c, expected, desired, spurious)
    ensures Inv(s')
  {
    if CellValue(s, c) == HandleValue(s, expected) && !spurious {
      StoreKeeps(s, s', t, c, desired);
    } else {
      PlainKeeps(s, s', t);
    }
  }

  lemma HandleStepKeeps(s: State, s': State, step: Step)
    requires Inv(s) && NextStep(s, s', step)
    requires step.NewStep? || step.CopyStep? || step.MakeWeakStep? || step.CopyWeakStep? || step.LockStep?
    ensures Inv(s')
  {
    match step
    case NewStep(k, p) => NewKeeps(s, s', k, p);
    case CopyStep(k, k') => CopyKeeps(s, s', k, k');
    case MakeWeakStep(k, k') => MakeWeakKeeps(s, s', k, k');
    case CopyWeakStep(k, k') => CopyWeakKeeps(s, s', k, k');
    case LockStep(k, k') => LockKeeps(s, s', k, k');
  }

  lemma DropKeeps(s: State, s': State, t: nat, k: nat)
    requires Inv(s) && Drop(s, s', t, k)
    ensures Inv(s')
  {
    assert Owners(s') by { DropOwners(s, s', t, k); }
    OwnersKeeps(s, s', t);
  }

  lemma DropWeakKeeps(s: State, s': State, t: nat, k: nat)
    requires Inv(s) && DropWeak(s, s', t, k)
    ensures Inv(s')
  {
    assert Owners(s') by { DropWeakOwners(s, s', t, k); }
    OwnersKeeps(s, s', t);
  }

  lemma DecStrongKeeps(s: State, s': State, t: nat, p: Ptr)
    requires Inv(s) && DoDecStrong(s, s', t, p)
    ensures Inv(s')
  {
    assert Owners(s') by { DecStrongOwners(s, s', t, p); }
    OwnersKeeps(s, s', t);
  }

  lemma DisposeKeeps(s: State, s': State, t: nat, p: Ptr)
    requires Inv(s) && DoDispose(s, s', t, p)
    ensures Inv(s')
  {
    assert Owners(s') by { DisposeOwners(s, s', t, p); }
    OwnersKeeps(s, s', t);
  }

  lemma ReclaimStepKeeps(s: State, s': State, step: Step)
    requires Inv(s) && NextStep(s, s', step)
    requires step.DecWeakStep? || step.RetireStep? || step.ScanStep? || step.ScanEndStep? || step.SweepStep?
             || step.SweepEndStep? || step.WorkStep? || step.EjectStep? || step.PeekStep? || step.PeekNextStep?
             || step.AppendSlotStep? || step.EnableStep?
    ensures Inv(s')
  {
    hide Inv, DoDecWeak, DoRetire, ScanOne, ScanEnd, SweepOne, SweepEnd, BeginWork, EjectOne, PeekOne, PeekNext, AppendSlot, EnableIncremental;
    match step
    case DecWeakStep(t, p) => DecWeakKeeps(s, s', t, p);
    case RetireStep(t, p) => RetireKeeps(s, s', t, p);
    case ScanStep(t, i, found) => ScanOneKeeps(s, s', t, i, found);
    case ScanEndStep(t, i, found) => ScanEndKeeps(s, s', t, i, found);
    case SweepStep(t, j, found) => SweepOneKeeps(s, s', t, j, found);
    case SweepEndStep(t, j, found) => SweepEndKeeps(s, s', t, j, found);
    case WorkStep(t) => WorkKeeps(s, s', t);
    case EjectStep(t, n) => EjectKeeps(s, s', t, n);
    case PeekStep(t) => PeekKeeps(s, s', t);
    case PeekNextStep(t) => PeekNextKeeps(s, s', t);
    case AppendSlotStep(hw) => AppendKeeps(s, s', hw);
    case EnableStep => EnableKeeps(s, s');
  }

  lemma CellStepKeeps(s: State, s': State, step: Step)
    requires Inv(s) && NextStep(s, s', step)
    requires step.StoreStep? || step.ExchangeStep? || step.CasStep?
    ensures Inv(s')
  {
    match step
    case StoreStep(t, c, k) => StoreKeeps(s, s', t, c, k);
    case ExchangeStep(t, c, k, k') => ExchangeKeeps(s, s', t, c, k, k');
    case CasStep(t, c, k, k', spurious) => CasKeeps(s, s', t, c, k, k', spurious);
  }

  lemma DropStepKeeps(s: State, s': State, step: Step)
    requires Inv(s) && NextStep(s, s', step)
    requires step.DropStep? || step.DropWeakStep? || step.DecStrongStep? || step.DisposeStep?
    ensures Inv(s')
  {
    match step
    case DropStep(t, k) => DropKeeps(s, s', t, k);
    case DropWeakStep(t, k) => DropWeakKeeps(s, s', t, k);
    case DecStrongStep(t, p) => DecStrongKeeps(s, s', t, p);
    case DisposeStep(t, p) => DisposeKeeps(s, s', t, p);
  }

  lemma StepKeeps(s: State, s': State, step: Step)
    requires Inv(s) && NextStep(s, s', step)
    ensures Inv(s')
  {
    if step.BeginLoadStep? || step.ReadCellStep? || step.PublishStep? || step.ValidateStep? || step.IncrementStep? {
      LoadStepKeeps(s, s', step);
    } else if step.StoreStep? || step.ExchangeStep? || step.CasStep? {
      CellStepKeeps(s, s', step);
    } else if step.NewStep? || step.CopyStep? || step.MakeWeakStep? || step.CopyWeakStep? || step.LockStep? {
      HandleStepKeeps(s, s', step);
    } else if step.DropStep? || step.DropWeakStep? || step.DecStrongStep? || step.DisposeStep? {
      DropStepKeeps(s, s', step);
    } else {
      ReclaimStepKeeps(s, s', step);
    }
  }

  lemma {:induction false} RunInv(run: seq<State>, hw: nat)
    requires IsRun(run, hw)
    ensures Inv(run[|run| - 1])
  {
    var m := |run| - 1;
    if m == 0 {
      InitInv(run[0], hw);
    } else {
      RunInv(run[..m], hw);
      assert Next(run[m - 1], run[m]);
      var step :| NextStep(run[m - 1], run[m], step);
      StepKeeps(run[m - 1], run[m], step);
    }
  }

  /** What the next access of a thread at `pc` needs of the block it touches. */
  ghost predicate TouchesLive(s: State, pc: PC)
  {
    match pc
    case LoadIncrement(_, r) => r in s.heap
    case DecStrong(p) => p in s.heap && s.heap[p].strong > 0 && !s.heap[p].disposed
    case Dispose(p) => p in s.heap && s.heap[p].strong == 0 && !s.heap[p].disposed && StrongSide(p) in s.wrefs
    case DecWeak(p) => p in s.heap && s.heap[p].weak > 0
    case Retire(p) => p in s.heap && s.heap[p].weak == 0 && s.heap[p].disposed
    case _ => true
  }

  /**
   No thread is ever about to touch a destroyed block, no object with a strong owner has been disposed,
   and no block with any owner has been destroyed.
   */
  lemma MemorySafe(run: seq<State>, hw: nat)
    requires IsRun(run, hw)
    ensures var s := run[|run| - 1];
            && (forall t :: 0 <= t < |s.slots| ==> TouchesLive(s, s.slots[t].pc))
            && (forall o :: o in s.refs ==> s.refs[o] in s.heap && !s.heap[s.refs[o]].disposed)
            && (forall o :: o in s.wrefs ==> s.wrefs[o] in s.heap)
            && (forall p :: p in s.heap ==> s.heap[p].strong == |Holders(s.refs, p)|)
  {
    RunInv(run, hw);
    var s := run[|run| - 1];
    forall o | o in s.refs ensures s.refs[o] in s.heap && !s.heap[s.refs[o]].disposed { HolderCounts(s.refs, o); }
    forall t | 0 <= t < |s.slots| ensures TouchesLive(s, s.slots[t].pc) { SlotTouchesLive(s, t); }
  }

  lemma SlotTouchesLive(s: State, t: nat)
    requires Inv(s) && t < |s.slots|
    ensures TouchesLive(s, s.slots[t].pc)
  {
    match s.slots[t].pc
    case DecStrong(p) => HolderCounts(s.refs, Flight(t));
    case DecWeak(p) => HolderCounts(s.wrefs, WeakFlight(t));
    case Retire(p) =>
      BagIsDead(s, t, p);
      NoUnits(s, p);
    case _ =>
  }

  /**
   A step destroys a block only when its object has been disposed, nobody owns any unit of it, nobody
   has a validated hazard on it, and it was waiting in exactly one place.
   */
  lemma DestroysOnlyDead(run: seq<State>, hw: nat, s': State, p: Ptr)
    requires IsRun(run, hw) && Next(run[|run| - 1], s')
    requires p in run[|run| - 1].heap && p !in s'.heap
    ensures Forgotten(run[|run| - 1], p)
    ensures forall t :: 0 <= t < |s'.slots| ==> p !in Bag(s'.slots[t])
  {
    RunInv(run, hw);
    var s := run[|run| - 1];
    var step :| NextStep(s, s', step);
    StepKeeps(s, s', step);
    DestroysForgotten(s, s', step, p);
    forall t | 0 <= t < |s'.slots| ensures p !in Bag(s'.slots[t]) {
      if p in Bag(s'.slots[t]) { BagIsDead(s', t, p); }
    }
  }

  ghost predicate Forgotten(s: State, p: Ptr)
  {
    && Dead(s.heap, p) && s.heap[p].disposed && Unprotected(s, p)
    && (forall o :: o in s.refs ==> s.refs[o] != p) && (forall o :: o in s.wrefs ==> s.wrefs[o] != p)
    && (exists t :: 0 <= t < |s.slots| && Bag(s.slots[t])[p] == 1)
  }

  lemma DestroysForgotten(s: State, s': State, step: Step, p: Ptr)
    requires Inv(s) && NextStep(s, s', step) && p in s.heap && p !in s'.heap
    ensures Forgotten(s, p)
  {
    Destroyers(s, s', step, p);
    match step
    case SweepStep(t, j, found) =>
      SweepUnprotected(s, s', t, j, found);
      assert p in s.slots[t].retired;
      BagForgotten(s, t, p);
    case EjectStep(t, n) =>
      EjectUnprotected(s, s', t, n);
      assert p in s.slots[t].eligible;
      BagForgotten(s, t, p);
  }

  lemma BagForgotten(s: State, t: nat, p: Ptr)
    requires Inv(s) && t < |s.slots| && (p in s.slots[t].retired || p in s.slots[t].eligible) && Unprotected(s, p)
    ensures Forgotten(s, p)
  {
    assert p in Bag(s.slots[t]);
    BagIsDead(s, t, p);
    NoUnits(s, p);
  }

  lemma Destroyers(s: State, s': State, step: Step, p: Ptr)
    requires NextStep(s, s', step) && p in s.heap && p !in s'.heap
    ensures step.SweepStep? || step.EjectStep?
  {
  }

  /** Every dead block is in exactly one bag, once: none is lost and none is queued twice. */
  lemma DeadBlocksWaitOnce(run: seq<State>, hw: nat, p: Ptr)
    requires IsRun(run, hw) && Dead(run[|run| - 1].heap, p)
    ensures var s := run[|run| - 1];
            exists t :: 0 <= t < |s.slots| && Bag(s.slots[t])[p] == 1 &&
              forall u :: 0 <= u < |s.slots| && u != t ==> p !in Bag(s.slots[u])
  {
    RunInv(run, hw);
    var s := run[|run| - 1];
    var t: nat :| t < |s.slots| && Copies(BagsOf(s), t, p) > 0;
    BagIsDead(s, t, p);
    forall u | 0 <= u < |s.slots| && u != t ensures p !in Bag(s.slots[u]) {
      assert Copies(BagsOf(s), u, p) == Bag(s.slots[u])[p];
    }
  }

  // --- the bulk mode bounds its garbage --------------------------------------------------------

  /** With `n` slots in the list, how long the retired list of a slot can be in bulk mode. */
  ghost predicate BulkOk(sl: Slot, n: nat)
  {
    && sl.lastSlots <= n && |sl.retired| <= sl.lastSlots + CLEANUP_THRESHOLD
    && match sl.pc
       case Scan(i, found) => |found| <= i && sl.since == 0
       case Sweep(j, found) =>
         |found| <= sl.lastSlots && sl.since == 0 && j <= |sl.retired| && forall k :: 0 <= k < j ==> sl.retired[k] in found
       case Work => false
       case Eject(_) => false
       case Peek => false
       case Peeked => false
       case _ => sl.since < CLEANUP_THRESHOLD && |sl.retired| <= sl.lastSlots + sl.since
  }

  ghost predicate Bulk(s: State)
  {
    if s.incremental then true else forall t :: 0 <= t < |s.slots| ==> BulkOk(s.slots[t], |s.slots|)
  }

  /** A list without repetition fits into any set that contains it. */
  lemma {:induction false} FitsInSet(l: seq<Ptr>, f: set<Ptr>)
    requires forall k :: 0 <= k < |l| ==> l[k] in f && multiset(l)[l[k]] == 1
    ensures |l| <= |f|
  {
    if l != [] {
      var p, rest := l[0], l[1..];
      assert l == [p] + rest;
      assert p !in multiset(rest);
      FitsInSet(rest, f - {p});
    }
  }

  lemma SweptFits(s: State, t: nat, found: set<Ptr>)
    requires Bags(s) && t < |s.slots|
    requires forall k :: 0 <= k < |s.slots[t].retired| ==> s.slots[t].retired[k] in found
    ensures |s.slots[t].retired| <= |found|
  {
    var l := s.slots[t].retired;
    forall k | 0 <= k < |l| ensures multiset(l)[l[k]] == 1 {
      assert l[k] in multiset(l);
      BagIsDead(s, t, l[k]);
    }
    FitsInSet(l, found);
  }

  lemma BulkStepKeeps(s: State, s': State, step: Step)
    requires Inv(s) && Bulk(s) && NextStep(s, s', step)
    ensures Bulk(s')
  {
    if step.RetireStep? || step.ScanStep? || step.ScanEndStep? {
      BulkScanStep(s, s', step);
    } else if step.SweepStep? || step.SweepEndStep? {
      if step.SweepEndStep? && !s.incremental { SweptFits(s, step.t, step.found); }
      BulkSweepStep(s, s', step);
    } else if step.WorkStep? || step.EjectStep? || step.PeekStep? || step.PeekNextStep? || step.AppendSlotStep? || step.EnableStep? {
      BulkOtherStep(s, s', step);
    } else if OnHandles(step) {
      BulkHandleStep(s, s', step);
    } else {
      BulkPlainStep(s, s', step);
    }
  }

  lemma BulkScanStep(s: State, s': State, step: Step)
    requires Bulk(s) && NextStep(s, s', step)
    requires step.RetireStep? || step.ScanStep? || step.ScanEndStep?
    ensures Bulk(s')
  {
  }

  lemma BulkSweepStep(s: State, s': State, step: Step)
    requires Bulk(s) && NextStep(s, s', step)
    requires step.SweepStep? || step.SweepEndStep?
    requires step.SweepEndStep? && !s.incremental ==> |s.slots[step.t].retired| <= |step.found|
    ensures Bulk(s')
  {
  }

  lemma BulkOtherStep(s: State, s': State, step: Step)
    requires Bulk(s) && NextStep(s, s', step)
    requires step.WorkStep? || step.EjectStep? || step.PeekStep? || step.PeekNextStep? || step.AppendSlotStep? || step.EnableStep?
    ensures Bulk(s')
  {
  }

  ghost predicate OnHandles(step: Step) {
    step.NewStep? || step.CopyStep? || step.MakeWeakStep? || step.CopyWeakStep? || step.LockStep?
    || step.DropStep? || step.DropWeakStep? || step.DecStrongStep? || step.DisposeStep? || step.DecWeakStep?
  }

  lemma BulkHandleStep(s: State, s': State, step: Step)
    requires Bulk(s) && NextStep(s, s', step) && OnHandles(step)
    ensures Bulk(s')
  {
  }

  lemma BulkPlainStep(s: State, s': State, step: Step)
    requires Bulk(s) && NextStep(s, s', step) && !OnHandles(step)
    requires !step.RetireStep? && !step.ScanStep? && !step.ScanEndStep? && !step.SweepStep? && !step.SweepEndStep?
    requires !step.WorkStep? && !step.EjectStep? && !step.PeekStep? && !step.PeekNextStep? && !step.AppendSlotStep? && !step.EnableStep?
    ensures Bulk(s')
  {
    hide TakeFrom, PutInto, Move, CellValue, HandleValue;
  }

  lemma {:induction false} RunBulk(run: seq<State>, hw: nat)
    requires IsRun(run, hw)
    ensures Bulk(run[|run| - 1])
  {
    var m := |run| - 1;
    if m > 0 {
      RunBulk(run[..m], hw);
      RunInv(run[..m], hw);
      assert Next(run[m - 1], run[m]);
      var step :| NextStep(run[m - 1], run[m], step);
      BulkStepKeeps(run[m - 1], run[m], step);
    }
  }

  /** In bulk mode a slot never holds more than the slots it last scanned plus 2000 retired blocks. */
  lemma RetiredBounded(run: seq<State>, hw: nat, t: nat)
    requires IsRun(run, hw)
    requires var s := run[|run| - 1]; !s.incremental && t < |s.slots|
    ensures var s := run[|run| - 1];
            |s.slots[t].retired| <= s.slots[t].lastSlots + 2000 <= |s.slots| + 2000
  {
    RunBulk(run, hw);
  }
}
