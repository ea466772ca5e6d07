/**
 The bounded queue for many producers and many consumers: tickets, a state machine per slot, and a permutation of
 the slots. Every access to `head_`, `tail_` or a slot state is a step of its own.
 */
module AtomicQueue {
  import opened Arith
  import opened Bits

  // ---------------------------------------------------------------------------------------
  // The index permutation
  // ---------------------------------------------------------------------------------------

  /** What the two lowest groups of `bits` bits differ in. */
  function Mix(bits: nat, index: nat): nat { Low(Xor(index, Shr(index, bits)), bits) }

  function Low(x: nat, bits: nat): nat { x % Pow2(bits) }

  function Shr(x: nat, bits: nat): nat { Quotient(x, Pow2(bits)) }

  function Shl(x: nat, bits: nat): nat { x * Pow2(bits) }

  /** `remap_index`: swap the lowest `bits` bits with the next `bits`. */
  function Remap(bits: nat, index: nat): nat {
    if bits == 0 then index else
      Xor(Xor(index, Mix(bits, index)), Shl(Mix(bits, index), bits))
  }

  lemma MixIs(bits: nat, r: nat, mid: nat, low: nat)
    requires mid < Pow2(bits) && low < Pow2(bits)
    ensures var m := Pow2(bits); Mix(bits, (r * m + mid) * m + low) == Xor(low, mid) && Xor(low, mid) < m
  {
    hide Xor, Pow2;
    var m := Pow2(bits);
    DivModOf(r * m + mid, low, m);
    XorSplit(r * m + mid, low, r, mid, bits);
    DivModOf(Xor(r * m + mid, r), Xor(low, mid), m);
  }

  /** Exclusive or with something below `m` and with something times `m`. */
  lemma XorLow(h: nat, low: nat, mix: nat, bits: nat)
    requires low < Pow2(bits) && mix < Pow2(bits)
    ensures Xor(h * Pow2(bits) + low, mix) == h * Pow2(bits) + Xor(low, mix) && Xor(low, mix) < Pow2(bits)
    ensures Xor(h * Pow2(bits) + low, Shl(mix, bits)) == Xor(h, mix) * Pow2(bits) + low
  {
    hide Xor, Pow2;
    XorSplit(h, low, 0, mix, bits);
    XorSplit(h, low, mix, 0, bits);
    XorNil(h);
    XorNil(low);
    assert 0 * Pow2(bits) + mix == mix && mix * Pow2(bits) + 0 == Shl(mix, bits);
  }

  lemma RemapSwaps(bits: nat, r: nat, mid: nat, low: nat)
    requires mid < Pow2(bits) && low < Pow2(bits)
    ensures var m := Pow2(bits); Remap(bits, (r * m + mid) * m + low) == (r * m + low) * m + mid
  {
    if bits > 0 {
      RemapSwapsSome(bits, r, mid, low, Pow2(bits));
    }
  }

  lemma RemapSwapsSome(bits: nat, r: nat, mid: nat, low: nat, m: nat)
    requires bits > 0 && m == Pow2(bits) && mid < m && low < m
    ensures Remap(bits, (r * m + mid) * m + low) == (r * m + low) * m + mid
  {
    hide Xor, Pow2, Mix, Shl;
    var h, mix := r * m + mid, Xor(low, mid);
    MixIs(bits, r, mid, low);
    XorLow(h, low, mix, bits);
    XorBack(low, mid);
    XorLow(h, mid, mix, bits);
    XorLow(r, mid, mix, bits);
    XorComm(low, mid);
    XorBack(mid, low);
  }

  lemma XorNil(a: nat)
    ensures Xor(a, 0) == a
  {
  }

  lemma XorBack(a: nat, b: nat)
    ensures Xor(a, Xor(a, b)) == b
  {
    XorAssoc(a, a, b);
    XorSelf(a);
    XorComm(0, b);
  }

  lemma Digits(index: nat, m: nat) returns (r: nat, mid: nat, low: nat)
    requires m > 0
    ensures mid < m && low < m && index == (r * m + mid) * m + low
  {
    DivMod(index, m);
    DivMod(index / m, m);
    r, mid, low := index / m / m, index / m % m, index % m;
  }

  /** Swapping twice changes nothing, so no two indices share a slot. */
  lemma RemapTwice(bits: nat, index: nat)
    ensures Remap(bits, Remap(bits, index)) == index
  {
    var r, mid, low := Digits(index, Pow2(bits));
    RemapSwaps(bits, r, mid, low);
    RemapSwaps(bits, r, low, mid);
  }

  /** The slots are used when there are at least the square of the slots in a cache line, and a power of two of them. */
  ghost predicate Shuffles(bits: nat, size: nat) {
    size > 0 && (bits == 0 || exists k :: k >= 2 * bits && size == Pow2(k))
  }

  /** Swapping stays within the array. */
  lemma RemapInRange(bits: nat, size: nat, index: nat)
    requires Shuffles(bits, size) && index < size
    ensures Remap(bits, index) < size
  {
    if bits > 0 {
      var k :| k >= 2 * bits && size == Pow2(k);
      var m := Pow2(bits);
      Pow2Split(bits, bits);
      Pow2Split(2 * bits, k - 2 * bits);
      var q := Pow2(k - 2 * bits);
      var r, mid, low := Digits(index, m);
      RemapSwaps(bits, r, mid, low);
      InBlock(r, mid, low, q, m);
      InBlockBack(r, low, mid, q, m);
    }
  }

  lemma InBlock(r: nat, mid: nat, low: nat, q: nat, m: nat)
    requires mid < m && low < m && (r * m + mid) * m + low < (m * m) * q
    ensures r < q
  {
    assert (r * m + mid) * m == (m * m) * r + mid * m;
    assert (m * m) * (q - r) == (m * m) * q - (m * m) * r;
    if q - r <= 0 { MulAtMost(m * m, q - r); }
  }

  lemma InBlockBack(r: nat, mid: nat, low: nat, q: nat, m: nat)
    requires mid < m && low < m && r < q
    ensures (r * m + mid) * m + low < (m * m) * q
  {
    assert (r * m + mid) * m == (m * m) * r + mid * m;
    MulMono(mid + 1, m, m);
    assert (mid + 1) * m == mid * m + m;
    MulMono(r + 1, q, m * m);
    assert (r + 1) * (m * m) == (m * m) * r + m * m;
  }

  // ---------------------------------------------------------------------------------------
  // The protocol
  // ---------------------------------------------------------------------------------------

  type Tid = nat

  /** The value of the `op`-th push call. */
  datatype Item = Item(op: nat, value: int)

  datatype SlotState = Empty | Storing | Stored | Loading

  datatype Cell = Cell(state: SlotState, elem: Item)

  datatype Pc =
    | PushHead(x: Item)                        // about to read head
    | PushTail(x: Item, h: nat)                // about to read tail and compare
    | PushCas(x: Item, h: nat, t: nat)         // there was room: about to raise head
    | PushWait(x: Item, ticket: nat)           // about to try EMPTY to STORING
    | PushStore(x: Item, ticket: nat)          // about to write the element
    | PushDone(x: Item, ticket: nat)           // about to set STORED
    | PopTail                                  // about to read tail
    | PopHead(t: nat)                          // about to read head and compare
    | PopCas(t: nat, h: nat)                   // not empty: about to raise tail
    | PopWait(ticket: nat)                     // about to try STORED to LOADING
    | PopLoad(ticket: nat)                     // about to take the element
    | PopDone(x: Item, ticket: nat)            // about to set EMPTY

  datatype Conf = Conf(size: nat, bits: nat)

  /** Where the item of a push is. */
  datatype Place = Pushing(t: Tid) | InSlot(i: nat) | Popping(t: Tid) | Returned(k: nat)

  /**
   `pc` has an entry for each thread inside a call. `place`, `value`, `popped`, `owner`, `producers` and `consumers`
   only record: where each item is, what it was pushed with, what has been returned, who has each slot, and which
   threads hold a ticket for it.
   */
  datatype State = State(
    head: nat, tail: nat, cells: seq<Cell>, pc: map<Tid, Pc>,
    place: map<nat, Place>, value: map<nat, int>, popped: seq<Item>,
    owner: seq<Tid>, producers: seq<set<Tid>>, consumers: seq<set<Tid>>)

  ghost predicate Sound(c: Conf) { Shuffles(c.bits, c.size) }

  function Slot(c: Conf, ticket: nat): nat
    requires c.size > 0
  {
    Remap(c.bits, ticket % c.size)
  }

  ghost predicate Init(c: Conf, s: State) {
    && |s.cells| == |s.owner| == |s.producers| == |s.consumers| == c.size
    && (forall i :: 0 <= i < c.size ==> s.cells[i].state == Empty && s.producers[i] == {} && s.consumers[i] == {})
    && s.head == s.tail == 0 && s.pc == map[] && s.place == map[] && s.value == map[] && s.popped == []
  }

  ghost predicate Sized(c: Conf, s: State) {
    Sound(c) && |s.cells| == |s.owner| == |s.producers| == |s.consumers| == c.size
  }

  /** Every ticket has a slot, so the steps that look at one are never held up. */
  lemma SlotInRange(c: Conf, ticket: nat)
    requires Sound(c)
    ensures Slot(c, ticket) < c.size
  {
    RemapInRange(c.bits, c.size, ticket % c.size);
  }

  /** Tickets less than a lap apart have different slots. */
  lemma SlotsDiffer(c: Conf, t: nat, u: nat)
    requires Sound(c) && t < u < t + c.size
    ensures Slot(c, t) != Slot(c, u)
  {
    ModDistinct(t, u, c.size);
    RemapTwice(c.bits, t % c.size);
    RemapTwice(c.bits, u % c.size);
  }

  // --- pushing ---

  ghost predicate BeginPush(s: State, s': State, t: Tid, v: int, op: nat) {
    && t !in s.pc && op !in s.place
    && s' == s.(pc := s.pc[t := PushHead(Item(op, v))], place := s.place[op := Pushing(t)], value := s.value[op := v])
  }

  ghost predicate PushReadHead(s: State, s': State, t: Tid) {
    && t in s.pc && s.pc[t].PushHead?
    && s' == s.(pc := s.pc[t := PushTail(s.pc[t].x, s.head)])
  }

  /** A full queue refuses: the call returns false. */
  ghost predicate PushReadTail(c: Conf, s: State, s': State, t: Tid) {
    && t in s.pc && s.pc[t].PushTail?
    && var x, h := s.pc[t].x, s.pc[t].h;
       s' == if h - s.tail >= c.size then s.(pc := s.pc - {t}, place := s.place - {x.op})
             else s.(pc := s.pc[t := PushCas(x, h, s.tail)])
  }

  ghost predicate TakePushTicket(c: Conf, s: State, s': State, t: Tid, x: Item) {
    && Sized(c, s) && Slot(c, s.head) < c.size
    && var i := Slot(c, s.head);
       s' == s.(head := s.head + 1, pc := s.pc[t := PushWait(x, s.head)],
                producers := s.producers[i := s.producers[i] + {t}])
  }

  /** The exchange may fail; then the check is made again with the head found. */
  ghost predicate PushRaiseHead(c: Conf, s: State, s': State, t: Tid, ok: bool) {
    && t in s.pc && s.pc[t].PushCas?
    && if ok then s.pc[t].h == s.head && TakePushTicket(c, s, s', t, s.pc[t].x)
       else s' == s.(pc := s.pc[t := PushTail(s.pc[t].x, s.head)])
  }

  /** `push` takes its ticket without looking. */
  ghost predicate PushFetchAdd(c: Conf, s: State, s': State, t: Tid) {
    t in s.pc && s.pc[t].PushHead? && TakePushTicket(c, s, s', t, s.pc[t].x)
  }

  ghost predicate PushAcquire(c: Conf, s: State, s': State, t: Tid) {
    && t in s.pc && s.pc[t].PushWait? && Sized(c, s) && Slot(c, s.pc[t].ticket) < c.size
    && var i := Slot(c, s.pc[t].ticket);
       s' == if s.cells[i].state != Empty then s
             else s.(cells := s.cells[i := s.cells[i].(state := Storing)], owner := s.owner[i := t],
                     pc := s.pc[t := PushStore(s.pc[t].x, s.pc[t].ticket)])
  }

  ghost predicate PushWrite(c: Conf, s: State, s': State, t: Tid) {
    && t in s.pc && s.pc[t].PushStore? && Sized(c, s) && Slot(c, s.pc[t].ticket) < c.size
    && var i := Slot(c, s.pc[t].ticket);
       s' == s.(cells := s.cells[i := s.cells[i].(elem := s.pc[t].x)], pc := s.pc[t := PushDone(s.pc[t].x, s.pc[t].ticket)])
  }

  ghost predicate PushRelease(c: Conf, s: State, s': State, t: Tid) {
    && t in s.pc && s.pc[t].PushDone? && Sized(c, s) && Slot(c, s.pc[t].ticket) < c.size
    && var i := Slot(c, s.pc[t].ticket);
       s' == s.(cells := s.cells[i := s.cells[i].(state := Stored)], pc := s.pc - {t},
                place := s.place[s.pc[t].x.op := InSlot(i)], producers := s.producers[i := s.producers[i] - {t}])
  }

  // --- popping ---

  ghost predicate BeginPop(s: State, s': State, t: Tid) {
    t !in s.pc && s' == s.(pc := s.pc[t := PopTail])
  }

  ghost predicate PopReadTail(s: State, s': State, t: Tid) {
    t in s.pc && s.pc[t].PopTail? && s' == s.(pc := s.pc[t := PopHead(s.tail)])
  }

  ghost predicate PopReadHead(s: State, s': State, t: Tid) {
    && t in s.pc && s.pc[t].PopHead?
    && s' == if s.head <= s.pc[t].t then s.(pc := s.pc - {t}) else s.(pc := s.pc[t := PopCas(s.pc[t].t, s.head)])
  }

  ghost predicate TakePopTicket(c: Conf, s: State, s': State, t: Tid) {
    && Sized(c, s) && Slot(c, s.tail) < c.size
    && var i := Slot(c, s.tail);
       s' == s.(tail := s.tail + 1, pc := s.pc[t := PopWait(s.tail)], consumers := s.consumers[i := s.consumers[i] + {t}])
  }

  ghost predicate PopRaiseTail(c: Conf, s: State, s': State, t: Tid, ok: bool) {
    && t in s.pc && s.pc[t].PopCas?
    && if ok then s.pc[t].t == s.tail && TakePopTicket(c, s, s', t)
       else s' == s.(pc := s.pc[t := PopHead(s.tail)])
  }

  ghost predicate PopFetchAdd(c: Conf, s: State, s': State, t: Tid) {
    t in s.pc && s.pc[t].PopTail? && TakePopTicket(c, s, s', t)
  }

  ghost predicate PopAcquire(c: Conf, s: State, s': State, t: Tid) {
    && t in s.pc && s.pc[t].PopWait? && Sized(c, s) && Slot(c, s.pc[t].ticket) < c.size
    && var i := Slot(c, s.pc[t].ticket);
       s' == if s.cells[i].state != Stored then s
             else s.(cells := s.cells[i := s.cells[i].(state := Loading)], owner := s.owner[i := t],
                     pc := s.pc[t := PopLoad(s.pc[t].ticket)], place := s.place[s.cells[i].elem.op := Popping(t)])
  }

  ghost predicate PopRead(c: Conf, s: State, s': State, t: Tid) {
    && t in s.pc && s.pc[t].PopLoad? && Sized(c, s) && Slot(c, s.pc[t].ticket) < c.size
    && s' == s.(pc := s.pc[t := PopDone(s.cells[Slot(c, s.pc[t].ticket)].elem, s.pc[t].ticket)])
  }

  ghost predicate PopRelease(c: Conf, s: State, s': State, t: Tid) {
    && t in s.pc && s.pc[t].PopDone? && Sized(c, s) && Slot(c, s.pc[t].ticket) < c.size
    && var i, x := Slot(c, s.pc[t].ticket), s.pc[t].x;
       s' == s.(cells := s.cells[i := s.cells[i].(state := Empty)], pc := s.pc - {t},
                place := s.place[x.op := Returned(|s.popped|)], popped := s.popped + [x],
                consumers := s.consumers[i := s.consumers[i] - {t}])
  }

  datatype Action =
    | DoBeginPush(v: int, op: nat) | DoPushReadHead | DoPushReadTail | DoPushRaiseHead(ok: bool) | DoPushFetchAdd
    | DoPushAcquire | DoPushWrite | DoPushRelease
    | DoBeginPop | DoPopReadTail | DoPopReadHead | DoPopRaiseTail(ok: bool) | DoPopFetchAdd
    | DoPopAcquire | DoPopRead | DoPopRelease

  ghost predicate NextStep(c: Conf, s: State, s': State, t: Tid, a: Action) {
    match a
    case DoBeginPush(v, op) => BeginPush(s, s', t, v, op)
    case DoPushReadHead => PushReadHead(s, s', t)
    case DoPushReadTail => PushReadTail(c, s, s', t)
    case DoPushRaiseHead(ok) => PushRaiseHead(c, s, s', t, ok)
    case DoPushFetchAdd => PushFetchAdd(c, s, s', t)
    case DoPushAcquire => PushAcquire(c, s, s', t)
    case DoPushWrite => PushWrite(c, s, s', t)
    case DoPushRelease => PushRelease(c, s, s', t)
    case DoBeginPop => BeginPop(s, s', t)
    case DoPopReadTail => PopReadTail(s, s', t)
    case DoPopReadHead => PopReadHead(s, s', t)
    case DoPopRaiseTail(ok) => PopRaiseTail(c, s, s', t, ok)
    case DoPopFetchAdd => PopFetchAdd(c, s, s', t)
    case DoPopAcquire => PopAcquire(c, s, s', t)
    case DoPopRead => PopRead(c, s, s', t)
    case DoPopRelease => PopRelease(c, s, s', t)
  }

  /** With `tryOnly`, no thread calls the blocking `push` and `pop`. */
  ghost predicate Next(c: Conf, s: State, s': State, tryOnly: bool) {
    exists t, a :: NextStep(c, s, s', t, a) && (tryOnly ==> !a.DoPushFetchAdd? && !a.DoPopFetchAdd?)
  }

  ghost predicate IsRun(c: Conf, run: seq<State>, tryOnly: bool) {
    && |run| > 0 && Sound(c) && Init(c, run[0])
    && forall i :: 0 <= i < |run| - 1 ==> Next(c, run[i], run[i + 1], tryOnly)
  }

  // ---------------------------------------------------------------------------------------
  // Invariant
  // ---------------------------------------------------------------------------------------

  predicate HasPushTicket(p: Pc) { p.PushWait? || p.PushStore? || p.PushDone? }

  predicate HasPopTicket(p: Pc) { p.PopWait? || p.PopLoad? || p.PopDone? }

  predicate IsPush(p: Pc) { p.PushHead? || p.PushTail? || p.PushCas? || HasPushTicket(p) }

  /** A thread that holds an item or a slot is the one recorded for it. */
  ghost predicate ThreadOk(c: Conf, s: State, t: Tid)
    requires Sized(c, s) && t in s.pc
  {
    var p := s.pc[t];
    && (IsPush(p) ==> p.x.op in s.place && s.place[p.x.op] == Pushing(t) && p.x.op in s.value && s.value[p.x.op] == p.x.value)
    && (HasPushTicket(p) ==>
          var i := Slot(c, p.ticket);
          i < c.size && t in s.producers[i]
          && (!p.PushWait? ==> s.cells[i].state == Storing && s.owner[i] == t)
          && (p.PushDone? ==> s.cells[i].elem == p.x))
    && (HasPopTicket(p) ==>
          var i := Slot(c, p.ticket);
          i < c.size && t in s.consumers[i]
          && (!p.PopWait? ==> s.cells[i].state == Loading && s.owner[i] == t)
          && (p.PopDone? ==> s.cells[i].elem == p.x))
  }

  /** A slot being stored or loaded has an owner that says so; a full slot's item is recorded there. */
  ghost predicate SlotOk(c: Conf, s: State, i: nat)
    requires Sized(c, s) && i < c.size
  {
    var cell, o := s.cells[i], s.owner[i];
    && (cell.state == Storing ==> o in s.pc && (s.pc[o].PushStore? || s.pc[o].PushDone?) && Slot(c, s.pc[o].ticket) == i)
    && (cell.state == Loading ==> o in s.pc && (s.pc[o].PopLoad? || s.pc[o].PopDone?) && Slot(c, s.pc[o].ticket) == i)
    && (cell.state == Stored || cell.state == Loading ==>
          var op := cell.elem.op;
          op in s.place && op in s.value && s.value[op] == cell.elem.value
          && s.place[op] == if cell.state == Stored then InSlot(i) else Popping(o))
    && (forall t :: t in s.producers[i] ==> t in s.pc && HasPushTicket(s.pc[t]) && Slot(c, s.pc[t].ticket) == i)
    && (forall t :: t in s.consumers[i] ==> t in s.pc && HasPopTicket(s.pc[t]) && Slot(c, s.pc[t].ticket) == i)
  }

  /** Each item is where it is recorded to be. */
  ghost predicate ItemOk(c: Conf, s: State, op: nat)
    requires Sized(c, s) && op in s.place
  {
    op in s.value &&
    match s.place[op]
    case Pushing(t) => t in s.pc && IsPush(s.pc[t]) && s.pc[t].x.op == op
    case InSlot(i) => i < c.size && s.cells[i].state == Stored && s.cells[i].elem.op == op
    case Popping(t) => t in s.pc && (s.pc[t].PopLoad? || s.pc[t].PopDone?) && Slot(c, s.pc[t].ticket) < c.size
                       && s.cells[Slot(c, s.pc[t].ticket)].elem.op == op
    case Returned(k) => k < |s.popped| && s.popped[k] == Item(op, s.value[op])
  }

  ghost predicate PoppedOk(s: State) {
    forall k :: 0 <= k < |s.popped| ==> s.popped[k].op in s.place && s.place[s.popped[k].op] == Returned(k)
  }

  ghost predicate Inv(c: Conf, s: State) {
    && Sized(c, s) && PoppedOk(s)
    && (forall t :: t in s.pc ==> ThreadOk(c, s, t))
    && (forall i :: 0 <= i < c.size ==> SlotOk(c, s, i))
    && (forall op :: op in s.place ==> ItemOk(c, s, op))
  }

  // ---------------------------------------------------------------------------------------
  // Every step keeps it
  // ---------------------------------------------------------------------------------------

  /** The item that a thread brings, if any. */
  ghost function Carried(s: State, t: Tid): set<Item> { if t in s.pc && IsPush(s.pc[t]) then {s.pc[t].x} else {} }

  ghost predicate Ticketless(s: State, t: Tid) { t in s.pc ==> !HasPushTicket(s.pc[t]) && !HasPopTicket(s.pc[t]) }

  /** A thread that has no ticket goes on without one and with the same item. */
  lemma MoveKeeps(c: Conf, s: State, s': State, t: Tid)
    requires Inv(c, s) && s' == s.(pc := s'.pc) && Ticketless(s, t) && Ticketless(s', t) && Carried(s', t) == Carried(s, t)
    requires forall u :: u != t ==> (u in s'.pc <==> u in s.pc) && (u in s.pc ==> s'.pc[u] == s.pc[u])
    ensures Inv(c, s')
  {
    hide Slot;
    CarriedSame(s, s', t);
    hide Carried;
    forall u | u in s'.pc ensures ThreadOk(c, s', u) { assert u in s.pc ==> ThreadOk(c, s, u); }
    forall i | 0 <= i < c.size ensures SlotOk(c, s', i) { assert SlotOk(c, s, i); }
    forall op | op in s'.place ensures ItemOk(c, s', op) { assert ItemOk(c, s, op); }
  }

  lemma CarriedSame(s: State, s': State, t: Tid)
    requires Carried(s', t) == Carried(s, t)
    ensures (t in s.pc && IsPush(s.pc[t])) <==> (t in s'.pc && IsPush(s'.pc[t]))
    ensures t in s.pc && IsPush(s.pc[t]) ==> s'.pc[t].x == s.pc[t].x
  {
    if t in s.pc && IsPush(s.pc[t]) { assert s.pc[t].x in Carried(s', t); }
    if t in s'.pc && IsPush(s'.pc[t]) { assert s'.pc[t].x in Carried(s, t); }
  }

  lemma BeginPushKeeps(c: Conf, s: State, s': State, t: Tid, v: int, op: nat)
    requires Inv(c, s) && BeginPush(s, s', t, v, op)
    ensures Inv(c, s')
  {
    hide Slot;
    forall u | u in s'.pc ensures ThreadOk(c, s', u) { assert u in s.pc ==> ThreadOk(c, s, u); }
    forall i | 0 <= i < c.size ensures SlotOk(c, s', i) { assert SlotOk(c, s, i); }
    forall op | op in s'.place ensures ItemOk(c, s', op) { assert op in s.place ==> ItemOk(c, s, op); }
  }

  lemma PushReadTailKeeps(c: Conf, s: State, s': State, t: Tid)
    requires Inv(c, s) && PushReadTail(c, s, s', t)
    ensures Inv(c, s')
  {
    hide Slot;
    forall u | u in s'.pc ensures ThreadOk(c, s', u) { assert u in s.pc ==> ThreadOk(c, s, u); }
    forall i | 0 <= i < c.size ensures SlotOk(c, s', i) { assert SlotOk(c, s, i); }
    forall op | op in s'.place ensures ItemOk(c, s', op) { assert op in s.place ==> ItemOk(c, s, op); }
  }

  lemma PushTicketKeeps(c: Conf, s: State, s': State, t: Tid)
    requires Inv(c, s) && t in s.pc && (s.pc[t].PushHead? || s.pc[t].PushCas?) && TakePushTicket(c, s, s', t, s.pc[t].x)
    ensures Inv(c, s')
  {
    hide Slot;
    forall u | u in s'.pc ensures ThreadOk(c, s', u) { assert u in s.pc ==> ThreadOk(c, s, u); }
    forall i | 0 <= i < c.size ensures SlotOk(c, s', i) { assert SlotOk(c, s, i); }
    forall op | op in s'.place ensures ItemOk(c, s', op) { assert op in s.place ==> ItemOk(c, s, op); }
  }

  lemma PushAcquireKeeps(c: Conf, s: State, s': State, t: Tid)
    requires Inv(c, s) && PushAcquire(c, s, s', t)
    ensures Inv(c, s')
  {
    hide Slot;
    forall u | u in s'.pc ensures ThreadOk(c, s', u) { assert u in s.pc ==> ThreadOk(c, s, u); }
    forall i | 0 <= i < c.size ensures SlotOk(c, s', i) { assert SlotOk(c, s, i); }
    forall op | op in s'.place ensures ItemOk(c, s', op) { assert op in s.place ==> ItemOk(c, s, op); }
  }

  lemma PushWriteKeeps(c: Conf, s: State, s': State, t: Tid)
    requires Inv(c, s) && PushWrite(c, s, s', t)
    ensures Inv(c, s')
  {
    hide Slot;
    forall u | u in s'.pc ensures ThreadOk(c, s', u) { assert u in s.pc ==> ThreadOk(c, s, u); }
    forall i | 0 <= i < c.size ensures SlotOk(c, s', i) { assert SlotOk(c, s, i); }
    forall op | op in s'.place ensures ItemOk(c, s', op) { assert op in s.place ==> ItemOk(c, s, op); }
  }

  lemma PushReleaseKeeps(c: Conf, s: State, s': State, t: Tid)
    requires Inv(c, s) && PushRelease(c, s, s', t)
    ensures Inv(c, s')
  {
    hide Slot;
    forall u | u in s'.pc ensures ThreadOk(c, s', u) { assert u in s.pc ==> ThreadOk(c, s, u); }
    forall i | 0 <= i < c.size ensures SlotOk(c, s', i) { assert SlotOk(c, s, i); }
    forall op | op in s'.place ensures ItemOk(c, s', op) { assert op in s.place ==> ItemOk(c, s, op); }
  }

  lemma PopTicketKeeps(c: Conf, s: State, s': State, t: Tid)
    requires Inv(c, s) && t in s.pc && (s.pc[t].PopTail? || s.pc[t].PopCas?) && TakePopTicket(c, s, s', t)
    ensures Inv(c, s')
  {
    hide Slot;
    forall u | u in s'.pc ensures ThreadOk(c, s', u) { assert u in s.pc ==> ThreadOk(c, s, u); }
    forall i | 0 <= i < c.size ensures SlotOk(c, s', i) { assert SlotOk(c, s, i); }
    forall op | op in s'.place ensures ItemOk(c, s', op) { assert op in s.place ==> ItemOk(c, s, op); }
  }

  lemma PopAcquireKeeps(c: Conf, s: State, s': State, t: Tid)
    requires Inv(c, s) && PopAcquire(c, s, s', t)
    ensures Inv(c, s')
  {
    hide Slot;
    var i := Slot(c, s.pc[t].ticket);
    assert ThreadOk(c, s, t) && SlotOk(c, s, i);
    assert s.cells[i].state != Empty && s.cells[i].state != Storing ==> ItemOk(c, s, s.cells[i].elem.op);
    forall u | u in s'.pc ensures ThreadOk(c, s', u) { assert u in s.pc ==> ThreadOk(c, s, u); }
    forall i | 0 <= i < c.size ensures SlotOk(c, s', i) { assert SlotOk(c, s, i); }
    forall op | op in s'.place ensures ItemOk(c, s', op) { assert op in s.place ==> ItemOk(c, s, op); }
  }

  lemma PopReadKeeps(c: Conf, s: State, s': State, t: Tid)
    requires Inv(c, s) && PopRead(c, s, s', t)
    ensures Inv(c, s')
  {
    hide Slot;
    forall u | u in s'.pc ensures ThreadOk(c, s', u) { assert u in s.pc ==> ThreadOk(c, s, u); }
    forall i | 0 <= i < c.size ensures SlotOk(c, s', i) { assert SlotOk(c, s, i); }
    forall op | op in s'.place ensures ItemOk(c, s', op) { assert op in s.place ==> ItemOk(c, s, op); }
  }

  lemma PopReleaseKeeps(c: Conf, s: State, s': State, t: Tid)
    requires Inv(c, s) && PopRelease(c, s, s', t)
    ensures Inv(c, s')
  {
    hide Slot;
    var i := Slot(c, s.pc[t].ticket);
    assert ThreadOk(c, s, t) && SlotOk(c, s, i);
    assert s.cells[i].state != Empty && s.cells[i].state != Storing ==> ItemOk(c, s, s.cells[i].elem.op);
    forall u | u in s'.pc ensures ThreadOk(c, s', u) { assert u in s.pc ==> ThreadOk(c, s, u); }
    forall i | 0 <= i < c.size ensures SlotOk(c, s', i) { assert SlotOk(c, s, i); }
    forall op | op in s'.place ensures ItemOk(c, s', op) { assert op in s.place ==> ItemOk(c, s, op); }
  }

  lemma StepKeeps(c: Conf, s: State, s': State, t: Tid, a: Action)
    requires Inv(c, s) && NextStep(c, s, s', t, a)
    ensures Inv(c, s')
  {
    hide Inv, TakePushTicket, TakePopTicket;
    match a
    case DoBeginPush(v, op) => BeginPushKeeps(c, s, s', t, v, op);
    case DoPushReadHead => MoveKeeps(c, s, s', t);
    case DoPushReadTail => PushReadTailKeeps(c, s, s', t);
    case DoPushRaiseHead(ok) => if ok { PushTicketKeeps(c, s, s', t); } else { MoveKeeps(c, s, s', t); }
    case DoPushFetchAdd => PushTicketKeeps(c, s, s', t);
    case DoPushAcquire => PushAcquireKeeps(c, s, s', t);
    case DoPushWrite => PushWriteKeeps(c, s, s', t);
    case DoPushRelease => PushReleaseKeeps(c, s, s', t);
    case DoBeginPop => MoveKeeps(c, s, s', t);
    case DoPopReadTail => MoveKeeps(c, s, s', t);
    case DoPopReadHead => MoveKeeps(c, s, s', t);
    case DoPopRaiseTail(ok) => if ok { PopTicketKeeps(c, s, s', t); } else { MoveKeeps(c, s, s', t); }
    case DoPopFetchAdd => PopTicketKeeps(c, s, s', t);
    case DoPopAcquire => PopAcquireKeeps(c, s, s', t);
    case DoPopRead => PopReadKeeps(c, s, s', t);
    case DoPopRelease => PopReleaseKeeps(c, s, s', t);
  }

  lemma InitInv(c: Conf, s: State)
    requires Sound(c) && Init(c, s)
    ensures Inv(c, s) && Counted(c, s) && Bounded(c, s)
  {
  }

  // ---------------------------------------------------------------------------------------
  // Tickets and slots
  // ---------------------------------------------------------------------------------------

  /** How many of the tickets below `n` are for slot `i`. */
  ghost function Tickets(c: Conf, n: nat, i: nat): nat
    requires c.size > 0
  {
    if n == 0 then 0 else Tickets(c, n - 1, i) + if Slot(c, n - 1) == i then 1 else 0
  }

  ghost function Full(cell: Cell): nat { if cell.state == Stored || cell.state == Loading then 1 else 0 }

  /** Stores pending, plus the item there is, plus pop tickets, are push tickets plus loads pending. */
  ghost predicate CountedAt(c: Conf, s: State, i: nat)
    requires Sized(c, s) && i < c.size
  {
    |s.producers[i]| + Full(s.cells[i]) + Tickets(c, s.tail, i) == Tickets(c, s.head, i) + |s.consumers[i]|
  }

  ghost predicate Counted(c: Conf, s: State) {
    Sized(c, s) && forall i :: 0 <= i < c.size ==> CountedAt(c, s, i)
  }

  lemma PushTicketCounts(c: Conf, s: State, s': State, t: Tid)
    requires Inv(c, s) && Counted(c, s) && t in s.pc && (s.pc[t].PushHead? || s.pc[t].PushCas?) && TakePushTicket(c, s, s', t, s.pc[t].x)
    ensures Counted(c, s')
  {
    hide Slot, Sound;
    forall i | 0 <= i < c.size ensures CountedAt(c, s', i) {
      assert CountedAt(c, s, i) && SlotOk(c, s, i) && (t in s.pc ==> ThreadOk(c, s, t));
    }
  }

  lemma PopTicketCounts(c: Conf, s: State, s': State, t: Tid)
    requires Inv(c, s) && Counted(c, s) && t in s.pc && (s.pc[t].PopTail? || s.pc[t].PopCas?) && TakePopTicket(c, s, s', t)
    ensures Counted(c, s')
  {
    hide Slot, Sound;
    forall i | 0 <= i < c.size ensures CountedAt(c, s', i) {
      assert CountedAt(c, s, i) && SlotOk(c, s, i) && (t in s.pc ==> ThreadOk(c, s, t));
    }
  }

  lemma PushReleaseCounts(c: Conf, s: State, s': State, t: Tid)
    requires Inv(c, s) && Counted(c, s) && PushRelease(c, s, s', t)
    ensures Counted(c, s')
  {
    hide Slot, Sound;
    forall i | 0 <= i < c.size ensures CountedAt(c, s', i) {
      assert CountedAt(c, s, i) && SlotOk(c, s, i) && (t in s.pc ==> ThreadOk(c, s, t));
    }
  }

  lemma PopReleaseCounts(c: Conf, s: State, s': State, t: Tid)
    requires Inv(c, s) && Counted(c, s) && PopRelease(c, s, s', t)
    ensures Counted(c, s')
  {
    hide Slot, Sound;
    forall i | 0 <= i < c.size ensures CountedAt(c, s', i) {
      assert CountedAt(c, s, i) && SlotOk(c, s, i) && (t in s.pc ==> ThreadOk(c, s, t));
    }
  }

  lemma AcquireCounts(c: Conf, s: State, s': State, t: Tid)
    requires Inv(c, s) && Counted(c, s) && (PushAcquire(c, s, s', t) || PushWrite(c, s, s', t) || PopAcquire(c, s, s', t))
    ensures Counted(c, s')
  {
    hide Slot, Sound;
    forall i | 0 <= i < c.size ensures CountedAt(c, s', i) {
      assert CountedAt(c, s, i) && SlotOk(c, s, i) && (t in s.pc ==> ThreadOk(c, s, t));
    }
  }

  lemma StepCounts(c: Conf, s: State, s': State, t: Tid, a: Action)
    requires Inv(c, s) && Counted(c, s) && NextStep(c, s, s', t, a)
    ensures Counted(c, s')
  {
    hide Inv, TakePushTicket, TakePopTicket, PushAcquire, PushWrite, PushRelease, PopAcquire, PopRelease, Slot, Sound;
    match a
    case DoPushRaiseHead(ok) => if ok { PushTicketCounts(c, s, s', t); } else { SameCounts(c, s, s'); }
    case DoPushFetchAdd => PushTicketCounts(c, s, s', t);
    case DoPushAcquire => AcquireCounts(c, s, s', t);
    case DoPushWrite => AcquireCounts(c, s, s', t);
    case DoPushRelease => PushReleaseCounts(c, s, s', t);
    case DoPopRaiseTail(ok) => if ok { PopTicketCounts(c, s, s', t); } else { SameCounts(c, s, s'); }
    case DoPopFetchAdd => PopTicketCounts(c, s, s', t);
    case DoPopAcquire => AcquireCounts(c, s, s', t);
    case DoPopRelease => PopReleaseCounts(c, s, s', t);
    case _ => SameCounts(c, s, s');
  }

  lemma SameCounts(c: Conf, s: State, s': State)
    requires Counted(c, s) && s'.head == s.head && s'.tail == s.tail && s'.cells == s.cells && s'.owner == s.owner
    requires s'.producers == s.producers && s'.consumers == s.consumers
    ensures Counted(c, s')
  {
    forall i | 0 <= i < c.size ensures CountedAt(c, s', i) { assert CountedAt(c, s, i); }
  }

  /** With only `try_push` and `try_pop`, there are never more push tickets out than slots ahead of the pop tickets. */
  ghost predicate Bounded(c: Conf, s: State) {
    && s.tail <= s.head <= s.tail + c.size
    && (forall t :: t in s.pc && s.pc[t].PushCas? ==> s.pc[t].t <= s.tail && s.pc[t].h < s.pc[t].t + c.size)
    && (forall t :: t in s.pc && s.pc[t].PopCas? ==> s.pc[t].t < s.pc[t].h <= s.head)
  }

  lemma StepBounds(c: Conf, s: State, s': State, t: Tid, a: Action)
    requires Bounded(c, s) && NextStep(c, s, s', t, a) && !a.DoPushFetchAdd? && !a.DoPopFetchAdd?
    ensures Bounded(c, s')
  {
    hide Slot;
  }

  lemma {:induction false} RunInv(c: Conf, run: seq<State>, tryOnly: bool)
    requires IsRun(c, run, tryOnly)
    ensures var s := run[|run| - 1]; Inv(c, s) && Counted(c, s) && (tryOnly ==> Bounded(c, s))
  {
    if |run| == 1 {
      InitInv(c, run[0]);
    } else {
      var m := |run| - 1;
      RunInv(c, run[..m], tryOnly);
      assert Next(c, run[m - 1], run[m], tryOnly);
      var t, a :| NextStep(c, run[m - 1], run[m], t, a) && (tryOnly ==> !a.DoPushFetchAdd? && !a.DoPopFetchAdd?);
      StepKeeps(c, run[m - 1], run[m], t, a);
      StepCounts(c, run[m - 1], run[m], t, a);
      if tryOnly { StepBounds(c, run[m - 1], run[m], t, a); }
    }
  }

  // ---------------------------------------------------------------------------------------
  // Theorems
  // ---------------------------------------------------------------------------------------

  /** Between winning a slot and giving it up, a thread may touch the element. */
  predicate Touches(p: Pc) { p.PushStore? || p.PushDone? || p.PopLoad? || p.PopDone? }

  /** No two threads are ever at the element of the same slot. */
  lemma Exclusive(c: Conf, run: seq<State>, tryOnly: bool, t: Tid, u: Tid)
    requires IsRun(c, run, tryOnly)
    requires var pc := run[|run| - 1].pc;
      t in pc && u in pc && Touches(pc[t]) && Touches(pc[u]) && Slot(c, pc[t].ticket) == Slot(c, pc[u].ticket)
    ensures t == u
  {
    RunInv(c, run, tryOnly);
    var s := run[|run| - 1];
    hide Slot;
    assert ThreadOk(c, s, t) && ThreadOk(c, s, u);
  }

  /** A slot in state STORING or LOADING has a thread that owns it. */
  lemma Owned(c: Conf, run: seq<State>, tryOnly: bool, i: nat) returns (t: Tid)
    requires IsRun(c, run, tryOnly) && i < |run[|run| - 1].cells|
    requires var cell := run[|run| - 1].cells[i]; cell.state == Storing || cell.state == Loading
    ensures var s := run[|run| - 1];
      t in s.pc && Touches(s.pc[t]) && Slot(c, s.pc[t].ticket) == i && (IsPush(s.pc[t]) <==> s.cells[i].state == Storing)
  {
    RunInv(c, run, tryOnly);
    var s := run[|run| - 1];
    hide Slot;
    assert SlotOk(c, s, i);
    t := s.owner[i];
  }

  /** Every item pushed and not refused is in one place: with its producer, in one slot, with one consumer, or returned. */
  lemma Conserved(c: Conf, run: seq<State>, tryOnly: bool, op: nat)
    requires IsRun(c, run, tryOnly) && op in run[|run| - 1].place
    ensures ItemAt(c, run[|run| - 1], op)
  {
    RunInv(c, run, tryOnly);
    var s := run[|run| - 1];
    hide Slot;
    assert ItemOk(c, s, op);
    forall t | t in s.pc && Brings(s.pc[t], op) ensures s.place[op] == Pushing(t) { assert ThreadOk(c, s, t); }
    forall i | 0 <= i < c.size && s.cells[i].state == Stored && s.cells[i].elem.op == op
      ensures s.place[op] == InSlot(i) && s.cells[i] == Cell(Stored, Item(op, s.value[op]))
    {
      assert SlotOk(c, s, i);
    }
    forall t | t in s.pc && Takes(c, s, s.pc[t], op) ensures s.place[op] == Popping(t) {
      assert ThreadOk(c, s, t) && SlotOk(c, s, Slot(c, s.pc[t].ticket));
    }
  }

  predicate Brings(p: Pc, op: nat) { IsPush(p) && p.x.op == op }

  ghost predicate Takes(c: Conf, s: State, p: Pc, op: nat)
    requires Sized(c, s)
  {
    (p.PopLoad? || p.PopDone?) && Slot(c, p.ticket) < c.size && s.cells[Slot(c, p.ticket)].elem.op == op
  }

  ghost predicate ItemAt(c: Conf, s: State, op: nat) {
    && Sized(c, s) && op in s.place && op in s.value
    && (forall t :: t in s.pc && Brings(s.pc[t], op) ==> s.place[op] == Pushing(t))
    && (forall i :: 0 <= i < c.size && s.cells[i].state == Stored && s.cells[i].elem.op == op ==> s.place[op] == InSlot(i))
    && (forall t :: t in s.pc && Takes(c, s, s.pc[t], op) ==> s.place[op] == Popping(t))
    && (forall k :: 0 <= k < |s.popped| && s.popped[k].op == op ==> s.place[op] == Returned(k) && s.popped[k].value == s.value[op])
    && match s.place[op]
       case Pushing(t) => t in s.pc && Brings(s.pc[t], op)
       case InSlot(i) => i < c.size && s.cells[i] == Cell(Stored, Item(op, s.value[op]))
       case Popping(t) => t in s.pc && Takes(c, s, s.pc[t], op)
       case Returned(k) => k < |s.popped| && s.popped[k] == Item(op, s.value[op])
  }

  /** No item is returned twice, and none that was not pushed. */
  lemma ReturnedOnce(c: Conf, run: seq<State>, tryOnly: bool, k: nat, m: nat)
    requires IsRun(c, run, tryOnly) && k < m < |run[|run| - 1].popped|
    ensures var s := run[|run| - 1]; s.popped[k].op != s.popped[m].op && s.popped[k].op in s.place
  {
    RunInv(c, run, tryOnly);
  }

  /** A lap of tickets has at most one for each slot. */
  lemma {:induction false} LapTickets(c: Conf, t: nat, h: nat, i: nat)
    requires Sound(c) && t <= h <= t + c.size
    ensures Tickets(c, t, i) <= Tickets(c, h, i) <= Tickets(c, t, i) + 1
    ensures Tickets(c, h, i) == Tickets(c, t, i) ==> forall u :: t <= u < h ==> Slot(c, u) != i
  {
    hide Slot, Sound;
    if t < h {
      LapTickets(c, t, h - 1, i);
      if Slot(c, h - 1) == i {
        forall u | t <= u < h - 1 ensures Slot(c, u) != i { SlotsDiffer(c, u, h - 1); }
        NoTickets(c, t, h - 1, i);
      }
    }
  }

  lemma {:induction false} NoTickets(c: Conf, t: nat, h: nat, i: nat)
    requires Sound(c) && t <= h && forall u :: t <= u < h ==> Slot(c, u) != i
    ensures Tickets(c, h, i) == Tickets(c, t, i)
  {
    hide Slot;
    if t < h { NoTickets(c, t, h - 1, i); }
  }

  /** With only `try_push` and `try_pop`, head and tail stay within a lap of each other. */
  lemma WithinALap(c: Conf, run: seq<State>)
    requires IsRun(c, run, true)
    ensures var s := run[|run| - 1]; s.tail <= s.head <= s.tail + c.size
  {
    RunInv(c, run, true);
  }

  /**
   With only `try_push` and `try_pop`, at each slot the consumers with a ticket are no more than the item there is
   and the producers with a ticket; and the producers are no more than the room there is and the consumers.
   */
  lemma Matched(c: Conf, run: seq<State>, i: nat)
    requires IsRun(c, run, true) && i < c.size
    ensures var s := run[|run| - 1];
      && |s.cells| == |s.producers| == |s.consumers| == c.size
      && |s.consumers[i]| <= Full(s.cells[i]) + |s.producers[i]|
      && |s.producers[i]| <= 1 - Full(s.cells[i]) + |s.consumers[i]|
  {
    RunInv(c, run, true);
    var s := run[|run| - 1];
    hide Slot;
    assert CountedAt(c, s, i);
    LapTickets(c, s.tail, s.head, i);
  }

  /** A consumer that waits at an empty slot is waiting for a producer that has a ticket for the slot. */
  lemma ConsumerIsServed(c: Conf, run: seq<State>, t: Tid) returns (u: Tid)
    requires IsRun(c, run, true)
    requires var s := run[|run| - 1];
      t in s.pc && s.pc[t].PopWait? && Slot(c, s.pc[t].ticket) < |s.cells| && s.cells[Slot(c, s.pc[t].ticket)].state == Empty
    ensures var s := run[|run| - 1]; u in s.pc && HasPushTicket(s.pc[u]) && Slot(c, s.pc[u].ticket) == Slot(c, s.pc[t].ticket)
  {
    RunInv(c, run, true);
    var s := run[|run| - 1];
    hide Slot;
    var i := Slot(c, s.pc[t].ticket);
    assert ThreadOk(c, s, t) && SlotOk(c, s, i);
    Matched(c, run, i);
    assert s.consumers[i] != {};
    u :| u in s.producers[i];
  }

  /** A producer that waits at a full slot is waiting for a consumer that has a ticket for the slot. */
  lemma ProducerIsServed(c: Conf, run: seq<State>, t: Tid) returns (u: Tid)
    requires IsRun(c, run, true)
    requires var s := run[|run| - 1];
      t in s.pc && s.pc[t].PushWait? && Slot(c, s.pc[t].ticket) < |s.cells| && s.cells[Slot(c, s.pc[t].ticket)].state == Stored
    ensures var s := run[|run| - 1]; u in s.pc && HasPopTicket(s.pc[u]) && Slot(c, s.pc[u].ticket) == Slot(c, s.pc[t].ticket)
  {
    RunInv(c, run, true);
    var s := run[|run| - 1];
    hide Slot;
    var i := Slot(c, s.pc[t].ticket);
    assert ThreadOk(c, s, t) && SlotOk(c, s, i);
    Matched(c, run, i);
    assert s.producers[i] != {};
    u :| u in s.consumers[i];
  }

  // ---------------------------------------------------------------------------------------
  // Answers, and calls that come to an end
  // ---------------------------------------------------------------------------------------

  /** What a thread has read of head or tail is not above it now. */
  ghost predicate Reads(s: State) {
    && (forall t :: t in s.pc && (s.pc[t].PushTail? || s.pc[t].PushCas?) ==> s.pc[t].h <= s.head)
    && (forall t :: t in s.pc && (s.pc[t].PopHead? || s.pc[t].PopCas?) ==> s.pc[t].t <= s.tail)
  }

  lemma StepReads(c: Conf, s: State, s': State, t: Tid, a: Action)
    requires Reads(s) && NextStep(c, s, s', t, a)
    ensures Reads(s')
  {
    hide Slot, Sound;
  }

  lemma {:induction false} RunReads(c: Conf, run: seq<State>, tryOnly: bool)
    requires IsRun(c, run, tryOnly)
    ensures Reads(run[|run| - 1])
  {
    if |run| > 1 {
      var m := |run| - 1;
      RunReads(c, run[..m], tryOnly);
      assert Next(c, run[m - 1], run[m], tryOnly);
      var t, a :| NextStep(c, run[m - 1], run[m], t, a);
      StepReads(c, run[m - 1], run[m], t, a);
    }
  }

  /** A push that ends without a ticket has refused its item, a pop that does has come back empty. */
  ghost predicate GivesUp(s: State, s': State, t: Tid) {
    t in s.pc && t !in s'.pc && !HasPushTicket(s.pc[t]) && !HasPopTicket(s.pc[t])
  }

  /**
   A push refuses only in a state in which the queue is full, and its item is forgotten; a pop comes back empty only in a
   state in which the queue is empty. With only `try_push` and `try_pop` full is a lap, and empty is head at tail.
   */
  lemma GivesUpRightly(c: Conf, run: seq<State>, tryOnly: bool, s': State, t: Tid, a: Action)
    requires IsRun(c, run, tryOnly) && NextStep(c, run[|run| - 1], s', t, a) && GivesUp(run[|run| - 1], s', t)
    ensures var s := run[|run| - 1];
      if IsPush(s.pc[t]) then
        s.head - s.tail >= c.size && (tryOnly ==> s.head == s.tail + c.size) && s'.place == s.place - {s.pc[t].x.op}
      else
        s.head <= s.tail && (tryOnly ==> s.head == s.tail) && s'.place == s.place
  {
    hide Slot, Sound, Inv, Counted;
    RunInv(c, run, tryOnly);
    RunReads(c, run, tryOnly);
  }

  /** Thread `t` waits at a slot for another. */
  ghost predicate Waits(c: Conf, s: State, t: Tid)
    requires t in s.pc && Sized(c, s)
  {
    var p := s.pc[t];
    (p.PushWait? && Slot(c, p.ticket) < c.size && s.cells[Slot(c, p.ticket)].state != Empty)
    || (p.PopWait? && Slot(c, p.ticket) < c.size && s.cells[Slot(c, p.ticket)].state != Stored)
  }

  /** The weak exchange of head or tail fails although it has not moved. */
  ghost predicate FailsSpuriously(s: State, t: Tid, a: Action)
    requires t in s.pc
  {
    (a == DoPushRaiseHead(false) && s.pc[t].PushCas? && s.pc[t].h == s.head)
    || (a == DoPopRaiseTail(false) && s.pc[t].PopCas? && s.pc[t].t == s.tail)
  }

  /** How many accesses a call still needs until it ends, if nobody disturbs it. */
  ghost function Rank(s: State, p: Pc): nat {
    match p
    case PushHead(_) => 8
    case PushTail(_, h) => if h == s.head then 5 else 7
    case PushCas(_, h, _) => if h == s.head then 4 else 6
    case PushWait(_, _) => 3
    case PushStore(_, _) => 2
    case PushDone(_, _) => 1
    case PopTail => 8
    case PopHead(t) => if t == s.tail then 5 else 7
    case PopCas(t, _) => if t == s.tail then 4 else 6
    case PopWait(_) => 3
    case PopLoad(_) => 2
    case PopDone(_, _) => 1
  }

  /** The item of a push with a ticket is in the slot of the ticket, that of a pop is returned. */
  ghost predicate Delivers(c: Conf, s: State, s': State, t: Tid)
    requires t in s.pc && Sized(c, s) && Sized(c, s')
  {
    var p := s.pc[t];
    && t !in s'.pc
    && if HasPushTicket(p) then Slot(c, p.ticket) < c.size && s'.cells[Slot(c, p.ticket)] == Cell(Stored, p.x)
       else HasPopTicket(p) && Slot(c, p.ticket) < c.size && s'.popped == s.popped + [s.cells[Slot(c, p.ticket)].elem]
  }

  /** Every access of a call ends it or brings it nearer to its end, unless it waits for another or an exchange fails spuriously. */
  lemma OwnStep(c: Conf, run: seq<State>, tryOnly: bool, s': State, t: Tid, a: Action)
    requires IsRun(c, run, tryOnly) && t in run[|run| - 1].pc && NextStep(c, run[|run| - 1], s', t, a)
    ensures var s := run[|run| - 1];
      && Sized(c, s) && Sized(c, s')
      && (|| GivesUp(s, s', t) || Delivers(c, s, s', t) || Waits(c, s, t) || FailsSpuriously(s, t, a)
          || (t in s'.pc && Rank(s', s'.pc[t]) < Rank(s, s.pc[t])))
  {
    hide Slot, Sound, Counted, Bounded;
    RunInv(c, run, tryOnly);
    var s := run[|run| - 1];
    StepKeeps(c, s, s', t, a);
    assert ThreadOk(c, s, t);
  }

  /** A thread inside a call always has an access to make that does not fail spuriously. */
  lemma CanStep(c: Conf, run: seq<State>, tryOnly: bool, t: Tid) returns (s': State, a: Action)
    requires IsRun(c, run, tryOnly) && t in run[|run| - 1].pc
    ensures NextStep(c, run[|run| - 1], s', t, a) && !FailsSpuriously(run[|run| - 1], t, a)
    ensures !a.DoPushFetchAdd? && !a.DoPopFetchAdd?
  {
    hide Slot, Counted, Bounded;
    RunInv(c, run, tryOnly);
    var s := run[|run| - 1];
    if HasPushTicket(s.pc[t]) || HasPopTicket(s.pc[t]) {
      SlotInRange(c, s.pc[t].ticket);
      s', a := SlotStep(c, s, t);
    } else {
      SlotInRange(c, s.head);
      SlotInRange(c, s.tail);
      s', a := TryStep(c, s, t);
    }
  }

  lemma TryStep(c: Conf, s: State, t: Tid) returns (s': State, a: Action)
    requires Sized(c, s) && t in s.pc && !HasPushTicket(s.pc[t]) && !HasPopTicket(s.pc[t])
    requires Slot(c, s.head) < c.size && Slot(c, s.tail) < c.size
    ensures NextStep(c, s, s', t, a) && !FailsSpuriously(s, t, a) && !a.DoPushFetchAdd? && !a.DoPopFetchAdd?
  {
    hide Slot, Sound;
    match s.pc[t]
    case PushHead(x) => s', a := s.(pc := s.pc[t := PushTail(x, s.head)]), DoPushReadHead;
    case PushTail(x, h) =>
      a := DoPushReadTail;
      s' := if h - s.tail >= c.size then s.(pc := s.pc - {t}, place := s.place - {x.op}) else s.(pc := s.pc[t := PushCas(x, h, s.tail)]);
    case PushCas(x, h, _) =>
      var i := Slot(c, s.head);
      a := DoPushRaiseHead(h == s.head);
      s' := if h != s.head then s.(pc := s.pc[t := PushTail(x, s.head)])
            else s.(head := s.head + 1, pc := s.pc[t := PushWait(x, s.head)], producers := s.producers[i := s.producers[i] + {t}]);
    case PopTail => s', a := s.(pc := s.pc[t := PopHead(s.tail)]), DoPopReadTail;
    case PopHead(n) =>
      a := DoPopReadHead;
      s' := if s.head <= n then s.(pc := s.pc - {t}) else s.(pc := s.pc[t := PopCas(n, s.head)]);
    case PopCas(n, _) =>
      var i := Slot(c, s.tail);
      a := DoPopRaiseTail(n == s.tail);
      s' := if n != s.tail then s.(pc := s.pc[t := PopHead(s.tail)])
            else s.(tail := s.tail + 1, pc := s.pc[t := PopWait(s.tail)], consumers := s.consumers[i := s.consumers[i] + {t}]);
  }

  lemma SlotStep(c: Conf, s: State, t: Tid) returns (s': State, a: Action)
    requires Sized(c, s) && t in s.pc && (HasPushTicket(s.pc[t]) || HasPopTicket(s.pc[t])) && Slot(c, s.pc[t].ticket) < c.size
    ensures NextStep(c, s, s', t, a) && !FailsSpuriously(s, t, a) && !a.DoPushFetchAdd? && !a.DoPopFetchAdd?
  {
    hide Slot, Sound;
    var i := Slot(c, s.pc[t].ticket);
    match s.pc[t]
    case PushWait(x, n) =>
      a := DoPushAcquire;
      s' := if s.cells[i].state != Empty then s
            else s.(cells := s.cells[i := s.cells[i].(state := Storing)], owner := s.owner[i := t], pc := s.pc[t := PushStore(x, n)]);
    case PushStore(x, n) => s', a := s.(cells := s.cells[i := s.cells[i].(elem := x)], pc := s.pc[t := PushDone(x, n)]), DoPushWrite;
    case PushDone(x, n) =>
      a := DoPushRelease;
      s' := s.(cells := s.cells[i := s.cells[i].(state := Stored)], pc := s.pc - {t},
               place := s.place[x.op := InSlot(i)], producers := s.producers[i := s.producers[i] - {t}]);
    case PopWait(n) =>
      a := DoPopAcquire;
      s' := if s.cells[i].state != Stored then s
            else s.(cells := s.cells[i := s.cells[i].(state := Loading)], owner := s.owner[i := t],
                    pc := s.pc[t := PopLoad(n)], place := s.place[s.cells[i].elem.op := Popping(t)]);
    case PopLoad(n) => s', a := s.(pc := s.pc[t := PopDone(s.cells[i].elem, n)]), DoPopRead;
    case PopDone(x, n) =>
      a := DoPopRelease;
      s' := s.(cells := s.cells[i := s.cells[i].(state := Empty)], pc := s.pc - {t},
               place := s.place[x.op := Returned(|s.popped|)], popped := s.popped + [x],
               consumers := s.consumers[i := s.consumers[i] - {t}]);
  }

  // ---------------------------------------------------------------------------------------
  // Tickets of 32 bits
  // ---------------------------------------------------------------------------------------

  const WORD: nat := 0x1_0000_0000

  /**
   The head and tail words wrap around; the slots they name are those of unbounded tickets exactly for sizes that
   divide 2 to the 32.
   */
  lemma WrapKeepsSlots(size: nat)
    requires size > 0
    ensures (forall t: nat :: t % WORD % size == t % size) <==> WORD % size == 0
  {
    if WORD % size == 0 {
      forall t: nat ensures t % WORD % size == t % size {
        DivMod(t, WORD);
        DivMod(WORD, size);
        DivMod(t % WORD, size);
        var q, r := WORD / size * (t / WORD) + t % WORD / size, t % WORD % size;
        assert t == q * size + r;
        DivModOf(q, r, size);
      }
    } else {
      assert WORD % WORD % size == 0;
    }
  }

  /**
   Exclusion rests on tickets less than a lap apart having different slots; for the words that holds if and only if the
   size divides 2 to the 32. Otherwise the word 0 collides with the last word that begins a lap.
   */
  lemma WrapKeepsApart(c: Conf)
    requires Sound(c) && c.size > 0
    ensures (forall t: nat, u: nat :: t < u < t + c.size ==> Slot(c, t % WORD) != Slot(c, u % WORD)) <==> WORD % c.size == 0
  {
    hide Remap, Sound;
    WrapKeepsSlots(c.size);
    if WORD % c.size == 0 {
      forall t: nat, u: nat | t < u < t + c.size ensures Slot(c, t % WORD) != Slot(c, u % WORD) { SlotsDiffer(c, t, u); }
    } else {
      var t: nat := WORD - WORD % c.size by { DivMod(WORD, c.size); }
      LapBegins(c.size);
      assert t < WORD < t + c.size && Slot(c, t % WORD) == Slot(c, WORD % WORD);
    }
  }

  lemma LapBegins(size: nat)
    requires size > 0 && WORD % size != 0
    ensures WORD >= WORD % size && (WORD - WORD % size) % WORD % size == 0 && 0 < WORD % size < size
  {
    DivMod(WORD, size);
    DivModOf(WORD / size, 0, size);
  }

  /** With three slots the last ticket before the words wrap and the first after it are for the same slot. */
  lemma ThreeCollide()
    ensures var c := Conf(3, 0); Sound(c) && Slot(c, (WORD - 1) % WORD) == Slot(c, WORD % WORD)
    ensures !forall t: nat, u: nat :: t < u < t + 3 ==> Slot(Conf(3, 0), t % WORD) != Slot(Conf(3, 0), u % WORD)
  {
    WrapKeepsApart(Conf(3, 0));
  }

  function Signed(x: nat): int { if x % WORD < WORD / 2 then x % WORD else x % WORD - WORD }

  /** The signed difference of the words is the difference of the tickets, while that fits. */
  lemma SignedDifference(h: nat, t: nat)
    requires t <= h + WORD / 2 && h < t + WORD / 2
    ensures Signed(h % WORD + WORD - t % WORD) == h - t
  {
  }
}
