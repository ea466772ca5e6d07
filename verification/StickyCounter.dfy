/**
 The wait-free sticky counter (`details::WaitFreeCounter<uint32_t>`): a 32-bit word
 whose two top bits say "zero" and "zero, nobody has claimed it yet".

 `Next` interleaves any number of threads, one shared access per step. A call is recorded at
 its first access and a return at its last one, so the real-time order that the linearization
 below must respect is the strictest one a caller could observe.
 */
module StickyCounter {

  const WORD: nat := 0x1_0000_0000
  const ZERO_FLAG: nat := 0x8000_0000
  const ZERO_PENDING: nat := 0x4000_0000

  type Tid = nat

  /** An operation is named by the time of its first access. */
  type OpId = nat

  datatype Op = Load | Inc(arg: nat) | Dec(arg: nat)
  datatype Res = Value(n: nat) | Bool(b: bool)
  datatype Return = Open | Done(time: nat, res: Res)
  datatype Call = Call(op: Op, ret: Return)

  /** Who called what, when, and with which answer. */
  type History = map<OpId, Call>

  /** Where a thread stands inside an operation that needs more than one access. */
  datatype PC = LoadCas(id: OpId) | DecCas(id: OpId, arg: nat) | DecXchg(id: OpId, arg: nat)

  /** `owned` is the number of units the clients hold and have not yet handed to a decrement. */
  datatype State = State(x: nat, owned: nat, pc: map<Tid, PC>, clock: nat, hist: History)

  /** A whole operation in one access. */
  ghost function Whole(s: State, op: Op, res: Res): State
  {
    s.(clock := s.clock + 2, hist := s.hist[s.clock := Call(op, Done(s.clock + 1, res))])
  }

  /** The first of several accesses. */
  ghost function Start(s: State, t: Tid, op: Op, pc: PC): State
  {
    s.(clock := s.clock + 1, hist := s.hist[s.clock := Call(op, Open)], pc := s.pc[t := pc])
  }

  /** The last of several accesses. */
  ghost function Finish(s: State, t: Tid, res: Res): State
    requires t in s.pc && s.pc[t].id in s.hist
  {
    var id := s.pc[t].id;
    s.(clock := s.clock + 1, hist := s.hist[id := s.hist[id].(ret := Done(s.clock, res))], pc := s.pc - {t})
  }

  predicate Flagged(w: nat) { w >= ZERO_FLAG }

  predicate PendingBit(w: nat) { (w / ZERO_PENDING) % 2 == 1 }

  /** What `load` reports for a word it has read. */
  function Shown(w: nat): nat { if Flagged(w) then 0 else w }

  ghost predicate Init(s: State, desired: nat)
  {
    && 1 <= desired < ZERO_PENDING
    && s == State(desired, desired, map[], 0, map[])
  }

  ghost predicate LoadFast(s: State, s': State, t: Tid)
  {
    t !in s.pc && s.x != 0 && s' == Whole(s, Load, Value(Shown(s.x)))
  }

  ghost predicate LoadSlow(s: State, s': State, t: Tid)
  {
    t !in s.pc && s.x == 0 && s' == Start(s, t, Load, LoadCas(s.clock))
  }

  ghost predicate At(s: State, t: Tid) { t in s.pc && s.pc[t].id in s.hist }

  ghost predicate LoadFinish(s: State, s': State, t: Tid)
  {
    && At(s, t) && s.pc[t].LoadCas?
    && s' == Finish(s, t, Value(Shown(s.x))).(x := if s.x == 0 then ZERO_FLAG + ZERO_PENDING else s.x)
  }

  /** The guard keeps live units, and failed increments after zero, below 2^30. */
  ghost predicate Increment(s: State, s': State, t: Tid, arg: nat)
  {
    && t !in s.pc && 1 <= arg && s.x % ZERO_PENDING + arg < ZERO_PENDING
    && s' == Whole(s, Inc(arg), Bool(!Flagged(s.x))).(
               x := (s.x + arg) % WORD, owned := if Flagged(s.x) then s.owned else s.owned + arg)
  }

  /** The first access of `decrement`; the caller gives up `arg` units that it owns. */
  ghost predicate Decrement(s: State, s': State, t: Tid, arg: nat)
  {
    && t !in s.pc && 1 <= arg <= s.owned && arg < WORD
    && var s1 := if s.x == arg then Start(s, t, Dec(arg), DecCas(s.clock, arg)) else Whole(s, Dec(arg), Bool(false));
       s' == s1.(x := (s.x + WORD - arg) % WORD, owned := s.owned - arg)
  }

  ghost predicate DecrementCas(s: State, s': State, t: Tid)
  {
    && At(s, t) && s.pc[t].DecCas?
    && s' == if s.x == 0 then Finish(s, t, Bool(true)).(x := ZERO_FLAG)
             else if PendingBit(s.x) then s.(pc := s.pc[t := DecXchg(s.pc[t].id, s.pc[t].arg)])
             else Finish(s, t, Bool(false))
  }

  ghost predicate DecrementExchange(s: State, s': State, t: Tid)
  {
    && At(s, t) && s.pc[t].DecXchg?
    && s' == Finish(s, t, Bool(PendingBit(s.x))).(x := ZERO_FLAG)
  }

  datatype Step =
    | LoadFastStep(t: Tid) | LoadSlowStep(t: Tid) | LoadFinishStep(t: Tid)
    | IncStep(t: Tid, arg: nat) | DecStep(t: Tid, arg: nat) | DecCasStep(t: Tid) | DecXchgStep(t: Tid)

  ghost predicate NextStep(s: State, s': State, step: Step)
  {
    match step
    case LoadFastStep(t) => LoadFast(s, s', t)
    case LoadSlowStep(t) => LoadSlow(s, s', t)
    case LoadFinishStep(t) => LoadFinish(s, s', t)
    case IncStep(t, arg) => Increment(s, s', t, arg)
    case DecStep(t, arg) => Decrement(s, s', t, arg)
    case DecCasStep(t) => DecrementCas(s, s', t)
    case DecXchgStep(t) => DecrementExchange(s, s', t)
  }

  /** A decrement that has told its caller that it took the counter to zero. */
  ghost predicate Won(h: History, id: OpId)
  {
    id in h && h[id].op.Dec? && h[id].ret.Done? && h[id].ret.res == Bool(true)
  }

  ghost function Wins(h: History): set<OpId> { set id | id in h && Won(h, id) }

  ghost predicate NonzeroLoad(s: State, step: Step)
  {
    (step.LoadFastStep? || step.LoadFinishStep?) && s.x != 0 && !Flagged(s.x)
  }

  /** No load reads a nonzero count while one of the decrements `wins` is between its two accesses. */
  ghost predicate Harmless(s: State, step: Step, wins: set<OpId>)
  {
    NonzeroLoad(s, step) ==> forall t :: t in s.pc && s.pc[t].DecCas? ==> s.pc[t].id !in wins
  }

  ghost predicate Next(s: State, s': State) { exists step :: NextStep(s, s', step) }

  ghost predicate HarmlessNext(s: State, s': State, wins: set<OpId>)
  {
    exists step :: NextStep(s, s', step) && Harmless(s, step, wins)
  }

  ghost predicate IsRun(run: seq<State>, desired: nat)
  {
    && |run| > 0 && Init(run[0], desired)
    && forall i :: 0 <= i < |run| - 1 ==> Next(run[i], run[i + 1])
  }

  // ---------------------------------------------------------------------------------------
  // The sequential sticky counter and what it means for a history to linearize to it.
  // ---------------------------------------------------------------------------------------

  datatype Entry = Entry(id: OpId, res: Res)

  /** The count to start from, and whether a load must show the count itself or only be right about zero. */
  datatype Spec = Spec(start: nat, exact: bool)

  ghost predicate SpecAllows(spec: Spec, n: nat, op: Op, res: Res)
  {
    match op
    case Load => res.Value? && (if spec.exact then res.n == n else (res.n == 0 <==> n == 0) && res.n <= n)
    case Inc(_) => res == Bool(n > 0)
    case Dec(arg) => arg <= n && res == Bool(n == arg)
  }

  ghost function SpecNext(n: nat, op: Op): nat
  {
    match op
    case Load => n
    case Inc(arg) => if n > 0 then n + arg else 0
    case Dec(arg) => if arg <= n then n - arg else 0
  }

  ghost function Count(spec: Spec, h: History, l: seq<Entry>): nat
  {
    if l == [] then spec.start
    else
      var n := Count(spec, h, l[..|l| - 1]);
      var e := l[|l| - 1];
      if e.id in h then SpecNext(n, h[e.id].op) else n
  }

  ghost predicate Legal(spec: Spec, h: History, l: seq<Entry>)
  {
    l == [] ||
    (var e := l[|l| - 1];
     && Legal(spec, h, l[..|l| - 1])
     && e.id in h
     && SpecAllows(spec, Count(spec, h, l[..|l| - 1]), h[e.id].op, e.res))
  }

  ghost predicate Returned(h: History, id: OpId) { id in h && h[id].ret.Done? }

  /** Operation `b` had returned before operation `a` was called. */
  ghost predicate RetBefore(h: History, b: OpId, a: OpId) { Returned(h, b) && h[b].ret.time < a }

  ghost predicate InOrder(h: History, l: seq<Entry>)
  {
    forall i, j :: 0 <= i < j < |l| ==> l[i].id != l[j].id && !RetBefore(h, l[j].id, l[i].id)
  }

  ghost predicate Answered(h: History, l: seq<Entry>)
  {
    forall id :: Returned(h, id) ==> Entry(id, h[id].ret.res) in l
  }

  /** `l` is a sequential execution that explains every answer in `h` and keeps real-time order. */
  ghost predicate Linearizes(spec: Spec, h: History, l: seq<Entry>)
  {
    Legal(spec, h, l) && InOrder(h, l) && Answered(h, l)
  }

  // ---------------------------------------------------------------------------------------
  // Facts about sequential executions
  // ---------------------------------------------------------------------------------------

  /** `h'` knows every operation of `h`. */
  ghost predicate Extends(h: History, h': History)
  {
    forall id :: id in h ==> id in h' && h'[id].op == h[id].op
  }

  lemma {:induction false} ExtendHistory(spec: Spec, h: History, h': History, l: seq<Entry>)
    requires Extends(h, h') && Legal(spec, h, l)
    ensures Legal(spec, h', l) && Count(spec, h', l) == Count(spec, h, l)
  {
    if l != [] {
      ExtendHistory(spec, h, h', l[..|l| - 1]);
    }
  }

  lemma LegalSnoc(spec: Spec, h: History, l: seq<Entry>, e: Entry)
    requires Legal(spec, h, l) && e.id in h && SpecAllows(spec, Count(spec, h, l), h[e.id].op, e.res)
    ensures Legal(spec, h, l + [e])
    ensures Count(spec, h, l + [e]) == SpecNext(Count(spec, h, l), h[e.id].op)
  {
    assert (l + [e])[..|l + [e]| - 1] == l;
  }

  ghost predicate IsDec(h: History, id: OpId)
  {
    id in h && h[id].op.Dec? && h[id].op.arg >= 1
  }

  /** `p` names calls of `decrement` with positive arguments. */
  ghost predicate AreDecs(h: History, p: seq<OpId>)
  {
    forall i :: 0 <= i < |p| ==> IsDec(h, p[i])
  }

  ghost function Units(h: History, p: seq<OpId>): nat
    requires AreDecs(h, p)
  {
    if p == [] then 0 else Units(h, p[..|p| - 1]) + h[p[|p| - 1]].op.arg
  }

  lemma {:induction false} UnitsExtend(h: History, h': History, p: seq<OpId>)
    requires Extends(h, h') && AreDecs(h, p)
    ensures AreDecs(h', p) && Units(h', p) == Units(h, p)
  {
    if p != [] { UnitsExtend(h, h', p[..|p| - 1]); }
  }

  lemma UnitsSnoc(h: History, p: seq<OpId>, id: OpId)
    requires AreDecs(h, p) && IsDec(h, id)
    ensures AreDecs(h, p + [id]) && Units(h, p + [id]) == Units(h, p) + h[id].op.arg
  {
    assert (p + [id])[..|p|] == p;
  }

  ghost function Without(p: seq<OpId>, i: nat): seq<OpId>
    requires i < |p|
  {
    p[..i] + p[i + 1..]
  }

  lemma {:induction false} UnitsWithout(h: History, p: seq<OpId>, i: nat)
    requires AreDecs(h, p) && i < |p|
    ensures AreDecs(h, Without(p, i)) && Units(h, p) == Units(h, Without(p, i)) + h[p[i]].op.arg
  {
    var q := Without(p, i);
    if i == |p| - 1 {
      assert q == p[..i];
    } else {
      var p0 := p[..|p| - 1];
      UnitsWithout(h, p0, i);
      assert Without(p0, i) == q[..|q| - 1];
    }
  }

  ghost function Falses(p: seq<OpId>): (l: seq<Entry>)
    ensures |l| == |p| && forall i :: 0 <= i < |p| ==> l[i] == Entry(p[i], Bool(false))
  {
    if p == [] then [] else Falses(p[..|p| - 1]) + [Entry(p[|p| - 1], Bool(false))]
  }

  /** The decrements in `p`, the last of which is the one that reaches zero. */
  ghost function Block(p: seq<OpId>): (l: seq<Entry>)
    ensures |l| == |p| && forall i :: 0 <= i < |p| ==> l[i] == Entry(p[i], Bool(i == |p| - 1))
  {
    if p == [] then [] else Falses(p[..|p| - 1]) + [Entry(p[|p| - 1], Bool(true))]
  }

  lemma {:induction false} FalsesLegal(spec: Spec, h: History, a: seq<Entry>, p: seq<OpId>)
    requires Legal(spec, h, a) && AreDecs(h, p) && Units(h, p) < Count(spec, h, a)
    ensures Legal(spec, h, a + Falses(p))
    ensures Count(spec, h, a + Falses(p)) == Count(spec, h, a) - Units(h, p)
  {
    if p == [] {
      assert a + Falses(p) == a;
    } else {
      var q, last := p[..|p| - 1], p[|p| - 1];
      FalsesLegal(spec, h, a, q);
      assert IsDec(h, last);
      LegalSnoc(spec, h, a + Falses(q), Entry(last, Bool(false)));
      assert a + Falses(p) == a + Falses(q) + [Entry(last, Bool(false))];
    }
  }

  lemma BlockLegal(spec: Spec, h: History, a: seq<Entry>, p: seq<OpId>)
    requires Legal(spec, h, a) && p != [] && AreDecs(h, p) && Units(h, p) == Count(spec, h, a)
    ensures Legal(spec, h, a + Block(p)) && Count(spec, h, a + Block(p)) == 0
  {
    var q, last := p[..|p| - 1], p[|p| - 1];
    assert IsDec(h, last);
    FalsesLegal(spec, h, a, q);
    LegalSnoc(spec, h, a + Falses(q), Entry(last, Bool(true)));
    assert a + Block(p) == a + Falses(q) + [Entry(last, Bool(true))];
  }

  /** Everything after zero: loads that see 0 and increments that fail. */
  ghost predicate Quiet(h: History, c: seq<Entry>)
  {
    forall i :: 0 <= i < |c| ==>
      && c[i].id in h
      && (h[c[i].id].op.Load? ==> c[i].res == Value(0))
      && (h[c[i].id].op.Inc? ==> c[i].res == Bool(false))
      && !h[c[i].id].op.Dec?
  }

  lemma {:induction false} QuietLegal(spec: Spec, h: History, l: seq<Entry>, c: seq<Entry>)
    requires Legal(spec, h, l) && Count(spec, h, l) == 0 && Quiet(h, c)
    ensures Legal(spec, h, l + c) && Count(spec, h, l + c) == 0
  {
    if c == [] {
      assert l + c == l;
    } else {
      var d := c[..|c| - 1];
      QuietLegal(spec, h, l, d);
      LegalSnoc(spec, h, l + d, c[|c| - 1]);
      assert l + c == l + d + [c[|c| - 1]];
    }
  }

  // ---------------------------------------------------------------------------------------
  // The invariant: a witness `w` explains the history of every reachable state.
  // ---------------------------------------------------------------------------------------

  /**
   Operations in `a` took effect before zero, those in `c` after it. `p` lists the decrements that
   brought the word to zero and still owe their second access; they take effect together, when the
   flag is set, and the one that will return true is the last of them. A decrement that is sure not
   to return true may already be in `a`.
   */
  datatype Lin = Lin(a: seq<Entry>, p: seq<OpId>, c: seq<Entry>)

  ghost function Order(s: State, w: Lin): seq<Entry>
  {
    if Flagged(s.x) then w.a + Block(w.p) + w.c else w.a
  }

  ghost predicate IsDecPc(pc: PC) { pc.DecCas? || pc.DecXchg? }

  ghost predicate PcsOk(s: State, w: Lin)
  {
    && (forall t :: t in s.pc ==> s.pc[t].id in s.hist && !Returned(s.hist, s.pc[t].id))
    && (forall t :: t in s.pc && s.pc[t].LoadCas? ==>
          && s.hist[s.pc[t].id].op == Load
          && (forall e :: e in Order(s, w) ==> e.id != s.pc[t].id))
    && (forall t :: t in s.pc && IsDecPc(s.pc[t]) ==>
          && s.hist[s.pc[t].id].op == Dec(s.pc[t].arg)
          && (s.pc[t].id in w.p || Entry(s.pc[t].id, Bool(false)) in w.a))
    && (forall t, u :: t in s.pc && u in s.pc && t != u ==> s.pc[t].id != s.pc[u].id)
  }

  /** Every decrement in `w.p` is still between its two accesses. */
  ghost predicate AllPending(s: State, w: Lin)
  {
    forall k :: k in w.p ==> exists t :: t in s.pc && IsDecPc(s.pc[t]) && s.pc[t].id == k
  }

  ghost predicate Distinct(p: seq<OpId>) { forall i, j :: 0 <= i < j < |p| ==> p[i] != p[j] }

  /** The three parts, in this order, keep real-time order whatever the order inside `p`. */
  ghost predicate PartsInOrder(h: History, w: Lin)
  {
    && InOrder(h, w.a) && InOrder(h, w.c) && Distinct(w.p)
    && (forall i, j :: 0 <= i < j < |w.p| ==> !RetBefore(h, w.p[j], w.p[i]))
    && (forall e, k :: e in w.a && k in w.p ==> e.id != k && !RetBefore(h, k, e.id))
    && (forall e, f :: e in w.a && f in w.c ==> e.id != f.id && !RetBefore(h, f.id, e.id))
    && (forall k, f :: k in w.p && f in w.c ==> f.id != k && !RetBefore(h, f.id, k))
  }

  ghost predicate WordOk(s: State, w: Lin, spec: Spec)
    requires AreDecs(s.hist, w.p)
  {
    if !Flagged(s.x) then
      && s.x < ZERO_PENDING && s.owned == s.x && w.c == []
      && Count(spec, s.hist, w.a) == s.x + Units(s.hist, w.p)
      && (s.x == 0 ==> w.p != [])
      && AllPending(s, w)
      && (forall t :: t in s.pc ==> !s.pc[t].DecXchg?)
    else
      && s.x < WORD && s.owned == 0 && w.p != []
      && Count(spec, s.hist, w.a) == Units(s.hist, w.p)
      && Quiet(s.hist, w.c)
      && (if PendingBit(s.x) then AllPending(s, w)
          else Returned(s.hist, w.p[|w.p| - 1]))
  }

  ghost predicate Inv(s: State, w: Lin, spec: Spec)
  {
    && (forall id :: id in s.hist ==> id < s.clock)
    && Legal(spec, s.hist, w.a)
    && AreDecs(s.hist, w.p)
    && (forall e :: e in w.c ==> e.id in s.hist)
    && WordOk(s, w, spec)
    && PcsOk(s, w)
    && PartsInOrder(s.hist, w)
    && Answered(s.hist, Order(s, w))
  }

  lemma {:induction false} LegalIds(spec: Spec, h: History, l: seq<Entry>)
    requires Legal(spec, h, l)
    ensures forall e :: e in l ==> e.id in h
  {
    if l != [] {
      LegalIds(spec, h, l[..|l| - 1]);
      assert l == l[..|l| - 1] + [l[|l| - 1]];
    }
  }

  lemma InvLinearizes(s: State, w: Lin, spec: Spec)
    requires Inv(s, w, spec)
    ensures Linearizes(spec, s.hist, Order(s, w))
  {
    if Flagged(s.x) {
      BlockLegal(spec, s.hist, w.a, w.p);
      QuietLegal(spec, s.hist, w.a + Block(w.p), w.c);
      OrderInOrder(s.hist, w);
    }
  }

  lemma OrderInOrder(h: History, w: Lin)
    requires PartsInOrder(h, w)
    ensures InOrder(h, w.a + Block(w.p) + w.c)
  {
    var l := w.a + Block(w.p) + w.c;
    var m, n := |w.a|, |w.a| + |w.p|;
    forall i, j | 0 <= i < j < |l| ensures l[i].id != l[j].id && !RetBefore(h, l[j].id, l[i].id) {
      if j < m {
        assert l[i] == w.a[i] && l[j] == w.a[j];
      } else if j < n {
        assert l[j].id == w.p[j - m];
        assert w.p[j - m] in w.p;
        if i < m { assert l[i] == w.a[i]; } else { assert l[i].id == w.p[i - m]; }
      } else {
        assert l[j] == w.c[j - n];
        assert l[j] in w.c;
        if i < m { assert l[i] == w.a[i]; }
        else if i < n { assert l[i].id == w.p[i - m]; assert w.p[i - m] in w.p; }
        else { assert l[i] == w.c[i - n]; }
      }
    }
  }

  // ---------------------------------------------------------------------------------------
  // Every step keeps the invariant.
  // ---------------------------------------------------------------------------------------

  /** `s'` comes after `s`: operations keep their names, and new answers carry later times. */
  ghost predicate Later(s: State, s': State)
  {
    && s.clock <= s'.clock && Extends(s.hist, s'.hist)
    && (forall id :: id in s'.hist ==> id < s'.clock)
    && (forall id :: id in s'.hist && id !in s.hist ==> s.clock <= id)
    && (forall id :: Returned(s.hist, id) ==> Returned(s'.hist, id))
    && (forall id :: Returned(s'.hist, id) ==>
          (Returned(s.hist, id) && s'.hist[id].ret == s.hist[id].ret) || s.clock <= s'.hist[id].ret.time)
  }

  /** A longer history changes nothing about the operations already placed. */
  lemma Grow(s: State, s': State, w: Lin, spec: Spec)
    requires Inv(s, w, spec) && Later(s, s')
    ensures Legal(spec, s'.hist, w.a) && Count(spec, s'.hist, w.a) == Count(spec, s.hist, w.a)
    ensures AreDecs(s'.hist, w.p) && Units(s'.hist, w.p) == Units(s.hist, w.p)
    ensures forall e :: e in w.a || e in w.c ==> e.id in s.hist
    ensures forall k :: k in w.p ==> IsDec(s.hist, k)
    ensures Quiet(s.hist, w.c) ==> Quiet(s'.hist, w.c)
  {
    ExtendHistory(spec, s.hist, s'.hist, w.a);
    UnitsExtend(s.hist, s'.hist, w.p);
    LegalIds(spec, s.hist, w.a);
  }

  lemma GrowOrder(s: State, s': State, w: Lin, spec: Spec)
    requires Inv(s, w, spec) && Later(s, s')
    ensures PartsInOrder(s'.hist, w)
  {
    var h, h' := s.hist, s'.hist;
    LegalIds(spec, h, w.a);
    assert forall a, b {:trigger RetBefore(h', b, a)} :: a in h ==> RetBefore(h', b, a) ==> RetBefore(h, b, a);
    assert InOrder(h', w.a) by {
      forall i, j | 0 <= i < j < |w.a|
        ensures w.a[i].id != w.a[j].id && !RetBefore(h', w.a[j].id, w.a[i].id)
      { assert w.a[i] in w.a; }
    }
    assert InOrder(h', w.c) by {
      forall i, j | 0 <= i < j < |w.c|
        ensures w.c[i].id != w.c[j].id && !RetBefore(h', w.c[j].id, w.c[i].id)
      { assert w.c[i] in w.c; }
    }
    forall i, j | 0 <= i < j < |w.p| ensures !RetBefore(h', w.p[j], w.p[i]) {
      assert IsDec(h, w.p[i]);
    }
    forall k | k in w.p ensures k in h { assert IsDec(h, k); }
  }

  /** Pending decrements have not returned. */
  lemma PendingUnreturned(s: State, w: Lin, spec: Spec)
    requires Inv(s, w, spec) && AllPending(s, w)
    ensures forall k :: k in w.p ==> !Returned(s.hist, k)
  {
    forall k | k in w.p ensures !Returned(s.hist, k) {
      var t :| t in s.pc && IsDecPc(s.pc[t]) && s.pc[t].id == k;
    }
  }

  /** Place an operation that had not returned in `s` at the end of `a`. */
  lemma PlaceLive(s: State, s': State, w: Lin, e: Entry)
    requires Later(s, s') && PartsInOrder(s'.hist, w) && w.c == []
    requires forall id :: id in s.hist ==> id < s.clock
    requires forall f :: f in w.a ==> f.id in s.hist && f.id != e.id
    requires forall k :: k in w.p ==> k in s.hist && k != e.id && !RetBefore(s'.hist, k, e.id)
    requires !Returned(s.hist, e.id)
    ensures PartsInOrder(s'.hist, w.(a := w.a + [e]))
  {
    var h' := s'.hist;
    assert forall a {:trigger RetBefore(h', e.id, a)} :: a in s.hist ==> !RetBefore(h', e.id, a);
    assert InOrder(h', w.a + [e]) by {
      var l := w.a + [e];
      forall i, j | 0 <= i < j < |l| ensures l[i].id != l[j].id && !RetBefore(h', l[j].id, l[i].id) {
        assert l[i] == w.a[i] && w.a[i] in w.a;
      }
    }
  }

  /** Place an operation that had not returned in `s` at the end of `c`. */
  lemma PlaceQuiet(s: State, s': State, w: Lin, e: Entry)
    requires Later(s, s') && PartsInOrder(s'.hist, w)
    requires forall id :: id in s.hist ==> id < s.clock
    requires forall f :: f in w.a || f in w.c ==> f.id in s.hist && f.id != e.id
    requires forall k :: k in w.p ==> k in s.hist && k != e.id
    requires !Returned(s.hist, e.id)
    ensures PartsInOrder(s'.hist, w.(c := w.c + [e]))
  {
    var h' := s'.hist;
    assert forall a {:trigger RetBefore(h', e.id, a)} :: a in s.hist ==> !RetBefore(h', e.id, a);
    assert InOrder(h', w.c + [e]) by {
      var l := w.c + [e];
      forall i, j | 0 <= i < j < |l| ensures l[i].id != l[j].id && !RetBefore(h', l[j].id, l[i].id) {
        assert l[i] == w.c[i] && w.c[i] in w.c;
      }
    }
  }

  /** Operation `id` answers `res` in this step; nothing else is answered and no other thread moves. */
  ghost predicate Completes(s: State, s': State, id: OpId, op: Op, res: Res)
  {
    && Later(s, s')
    && id in s'.hist && s'.hist[id].op == op && s'.hist[id].ret.Done? && s'.hist[id].ret.res == res
    && !Returned(s.hist, id)
    && (forall k :: Returned(s'.hist, k) && k != id ==> Returned(s.hist, k) && s'.hist[k].ret == s.hist[k].ret)
    && (forall t :: t in s'.pc ==> t in s.pc && s'.pc[t] == s.pc[t] && s.pc[t].id != id)
    && (forall t :: t in s.pc && s.pc[t].id != id ==> t in s'.pc)
  }

  /** Operation `id` has no place yet. */
  ghost predicate Unplaced(w: Lin, id: OpId)
  {
    && (forall e :: e in w.a ==> e.id != id)
    && (forall e :: e in w.c ==> e.id != id)
    && id !in w.p
  }

  lemma WholeCompletes(s: State, s': State, w: Lin, spec: Spec, op: Op, res: Res)
    requires Inv(s, w, spec) && s' == Whole(s, op, res).(x := s'.x, owned := s'.owned)
    ensures Completes(s, s', s.clock, op, res) && Unplaced(w, s.clock)
  {
    LegalIds(spec, s.hist, w.a);
    forall k | k in w.p ensures k in s.hist { assert exists i :: 0 <= i < |w.p| && w.p[i] == k; }
  }

  /** No decrement listed in `p` is a load. */
  lemma PendingAreDecs(h: History, p: seq<OpId>)
    requires AreDecs(h, p)
    ensures forall k :: k in p ==> IsDec(h, k)
  {
    forall k | k in p ensures IsDec(h, k) {
      var i :| 0 <= i < |p| && p[i] == k;
    }
  }

  lemma LoadFinishCompletes(s: State, s': State, w: Lin, t: Tid, res: Res)
    requires PcsOk(s, w) && AreDecs(s.hist, w.p) && (forall id :: id in s.hist ==> id < s.clock)
    requires At(s, t) && s.pc[t].LoadCas? && s' == Finish(s, t, res).(x := s'.x)
    ensures Completes(s, s', s.pc[t].id, Load, res)
    ensures !Flagged(s.x) ==> forall e :: e in w.a ==> e.id != s.pc[t].id
    ensures Flagged(s.x) ==> Unplaced(w, s.pc[t].id)
    ensures s.pc[t].id !in w.p
  {
    PendingAreDecs(s.hist, w.p);
    var id := s.pc[t].id;
    if Flagged(s.x) {
      forall e | e in w.a || e in w.c ensures e.id != id {
        assert e in Order(s, w);
      }
    }
  }

  lemma DecFinishCompletes(s: State, s': State, w: Lin, t: Tid, res: Res)
    requires PcsOk(s, w) && (forall id :: id in s.hist ==> id < s.clock)
    requires At(s, t) && IsDecPc(s.pc[t]) && s' == Finish(s, t, res).(x := s'.x)
    ensures Completes(s, s', s.pc[t].id, Dec(s.pc[t].arg), res)
  {
  }

  /** The threads still inside an operation keep their place when `id` completes. */
  lemma PcsComplete(s: State, s': State, w: Lin, w': Lin, id: OpId, op: Op, res: Res)
    requires PcsOk(s, w) && Completes(s, s', id, op, res)
    requires forall e :: e in Order(s', w') ==> e in Order(s, w) || e.id in w.p || e.id == id
    requires forall k :: k in w.p && k != id ==> k in w'.p
    requires forall e :: e in w.a ==> e in w'.a
    requires forall k :: k in w.p ==> k in s.hist && s.hist[k].op.Dec?
    ensures PcsOk(s', w')
  {
  }

  lemma PendingComplete(s: State, s': State, w: Lin, w': Lin, id: OpId, op: Op, res: Res)
    requires AllPending(s, w) && Completes(s, s', id, op, res)
    requires forall k :: k in w'.p ==> k in w.p && k != id
    ensures AllPending(s', w')
  {
    forall k | k in w'.p ensures exists t :: t in s'.pc && IsDecPc(s'.pc[t]) && s'.pc[t].id == k {
      var t :| t in s.pc && IsDecPc(s.pc[t]) && s.pc[t].id == k;
      assert t in s'.pc;
    }
  }

  lemma AnsweredComplete(s: State, s': State, l: seq<Entry>, l': seq<Entry>, id: OpId, op: Op, res: Res)
    requires Answered(s.hist, l) && Completes(s, s', id, op, res)
    requires forall e :: e in l ==> e in l'
    requires Entry(id, res) in l'
    ensures Answered(s'.hist, l')
  {
  }

  // --- Operations that take effect while the counter is live -------------------------------

  /** A load, an increment, or a decrement that does not reach zero. */
  lemma {:induction false} PlaceInA(s: State, s': State, w: Lin, spec: Spec, id: OpId, op: Op, res: Res, w': Lin)
    requires Inv(s, w, spec) && !Flagged(s.x) && Completes(s, s', id, op, res)
    requires (forall e :: e in w.a ==> e.id != id) && id !in w.p
    requires s'.owned == s'.x < ZERO_PENDING && (s'.x == 0 ==> w.p != [])
    requires SpecAllows(spec, Count(spec, s.hist, w.a), op, res)
    requires SpecNext(Count(spec, s.hist, w.a), op) == s'.x + Units(s.hist, w.p)
    requires w' == w.(a := w.a + [Entry(id, res)])
    ensures Inv(s', w', spec)
  {
    PlaceInAWord(s, s', w, spec, id, op, res, w');
    PlaceInAOrder(s, s', w, spec, id, op, res, w');
    AnsweredComplete(s, s', w.a, w'.a, id, op, res);
  }

  lemma PlaceInAWord(s: State, s': State, w: Lin, spec: Spec, id: OpId, op: Op, res: Res, w': Lin)
    requires Inv(s, w, spec) && !Flagged(s.x) && Completes(s, s', id, op, res) && id !in w.p
    requires s'.owned == s'.x < ZERO_PENDING && (s'.x == 0 ==> w.p != [])
    requires SpecAllows(spec, Count(spec, s.hist, w.a), op, res)
    requires SpecNext(Count(spec, s.hist, w.a), op) == s'.x + Units(s.hist, w.p)
    requires w' == w.(a := w.a + [Entry(id, res)])
    ensures Legal(spec, s'.hist, w'.a) && AreDecs(s'.hist, w'.p) && WordOk(s', w', spec)
  {
    Grow(s, s', w, spec);
    LegalSnoc(spec, s'.hist, w.a, Entry(id, res));
    PendingComplete(s, s', w, w', id, op, res);
  }

  lemma PlaceInAOrder(s: State, s': State, w: Lin, spec: Spec, id: OpId, op: Op, res: Res, w': Lin)
    requires Inv(s, w, spec) && !Flagged(s.x) && !Flagged(s'.x) && Completes(s, s', id, op, res)
    requires (forall e :: e in w.a ==> e.id != id) && id !in w.p
    requires w' == w.(a := w.a + [Entry(id, res)])
    ensures PartsInOrder(s'.hist, w') && PcsOk(s', w')
  {
    Grow(s, s', w, spec);
    PcsComplete(s, s', w, w', id, op, res);
    GrowOrder(s, s', w, spec);
    PendingUnreturned(s, w, spec);
    PlaceLive(s, s', w, Entry(id, res));
  }

  /** A decrement that had reached zero finds the counter raised again and answers false. */
  lemma {:induction false} PlaceStale(s: State, s': State, w: Lin, spec: Spec, i: nat, id: OpId, arg: nat, w': Lin)
    requires Inv(s, w, spec) && !Flagged(s.x) && 0 < s.x && i < |w.p| && w.p[i] == id
    requires Completes(s, s', id, Dec(arg), Bool(false)) && s'.x == s.x && s'.owned == s.owned
    requires w' == Lin(w.a + [Entry(id, Bool(false))], Without(w.p, i), [])
    ensures Inv(s', w', spec)
  {
    PlaceStaleWord(s, s', w, spec, i, id, arg, w');
    PlaceStaleOrder(s, s', w, spec, i, id, arg, w');
    PlaceStalePcs(s, s', w, i, id, arg, w');
    AnsweredComplete(s, s', w.a, w'.a, id, Dec(arg), Bool(false));
  }

  lemma PlaceStaleWord(s: State, s': State, w: Lin, spec: Spec, i: nat, id: OpId, arg: nat, w': Lin)
    requires Inv(s, w, spec) && !Flagged(s.x) && 0 < s.x && i < |w.p| && w.p[i] == id
    requires Completes(s, s', id, Dec(arg), Bool(false)) && s'.x == s.x && s'.owned == s.owned
    requires w' == Lin(w.a + [Entry(id, Bool(false))], Without(w.p, i), [])
    ensures Legal(spec, s'.hist, w'.a) && AreDecs(s'.hist, w'.p) && WordOk(s', w', spec)
  {
    Grow(s, s', w, spec);
    UnitsWithout(s'.hist, w.p, i);
    LegalSnoc(spec, s'.hist, w.a, Entry(id, Bool(false)));
    WithoutFacts(w.p, i);
    PendingComplete(s, s', w, w', id, Dec(arg), Bool(false));
  }

  lemma WithoutFacts(p: seq<OpId>, i: nat)
    requires i < |p| && Distinct(p)
    ensures Distinct(Without(p, i))
    ensures forall k :: k in Without(p, i) <==> k in p && k != p[i]
  {
    var q := Without(p, i);
    forall j | 0 <= j < |q| ensures q[j] in p && q[j] != p[i] {
      assert q[j] == if j < i then p[j] else p[j + 1];
    }
    forall k | k in p && k != p[i] ensures k in q {
      var j :| 0 <= j < |p| && p[j] == k;
      assert q[if j < i then j else j - 1] == k;
    }
  }

  lemma PlaceStaleOrder(s: State, s': State, w: Lin, spec: Spec, i: nat, id: OpId, arg: nat, w': Lin)
    requires Inv(s, w, spec) && !Flagged(s.x) && 0 < s.x && i < |w.p| && w.p[i] == id
    requires Completes(s, s', id, Dec(arg), Bool(false)) && s'.x == s.x && s'.owned == s.owned
    requires w' == Lin(w.a + [Entry(id, Bool(false))], Without(w.p, i), [])
    ensures PartsInOrder(s'.hist, w')
  {
    Grow(s, s', w, spec);
    WithoutFacts(w.p, i);
    GrowOrder(s, s', w, spec);
    PendingUnreturned(s, w, spec);
    DropPending(s'.hist, w, i);
    assert id in w.p;
    PlaceLive(s, s', w.(p := Without(w.p, i)), Entry(id, Bool(false)));
  }

  lemma PlaceStalePcs(s: State, s': State, w: Lin, i: nat, id: OpId, arg: nat, w': Lin)
    requires PcsOk(s, w) && AreDecs(s.hist, w.p) && Distinct(w.p)
    requires !Flagged(s.x) && i < |w.p| && w.p[i] == id
    requires Completes(s, s', id, Dec(arg), Bool(false)) && s'.x == s.x
    requires w' == Lin(w.a + [Entry(id, Bool(false))], Without(w.p, i), [])
    ensures PcsOk(s', w')
  {
    PendingAreDecs(s.hist, w.p);
    WithoutFacts(w.p, i);
    PcsComplete(s, s', w, w', id, Dec(arg), Bool(false));
  }

  lemma DropPending(h: History, w: Lin, i: nat)
    requires PartsInOrder(h, w) && i < |w.p|
    ensures PartsInOrder(h, w.(p := Without(w.p, i)))
  {
    WithoutFacts(w.p, i);
    var q := Without(w.p, i);
    forall j, k | 0 <= j < k < |q| ensures !RetBefore(h, q[k], q[j]) {
      assert q[j] == w.p[if j < i then j else j + 1] && q[k] == w.p[if k < i then k else k + 1];
    }
  }

  // --- Operations that take effect at zero or after it ---------------------------------------

  /** A load or an increment after zero. */
  lemma {:induction false} PlaceInC(s: State, s': State, w: Lin, spec: Spec, id: OpId, op: Op, res: Res, w': Lin)
    requires Inv(s, w, spec) && Flagged(s.x) && Completes(s, s', id, op, res) && Unplaced(w, id)
    requires Flagged(s'.x) && s'.x < WORD && PendingBit(s'.x) == PendingBit(s.x) && s'.owned == 0
    requires (op == Load && res == Value(0)) || (op.Inc? && res == Bool(false))
    requires w' == w.(c := w.c + [Entry(id, res)])
    ensures Inv(s', w', spec)
  {
    PlaceInCWord(s, s', w, spec, id, op, res, w');
    PlaceInCOrder(s, s', w, spec, id, op, res, w');
    PlaceInCPcs(s, s', w, id, op, res, w');
  }

  lemma PlaceInCWord(s: State, s': State, w: Lin, spec: Spec, id: OpId, op: Op, res: Res, w': Lin)
    requires Inv(s, w, spec) && Flagged(s.x) && Completes(s, s', id, op, res) && Unplaced(w, id)
    requires Flagged(s'.x) && s'.x < WORD && PendingBit(s'.x) == PendingBit(s.x) && s'.owned == 0
    requires (op == Load && res == Value(0)) || (op.Inc? && res == Bool(false))
    requires w' == w.(c := w.c + [Entry(id, res)])
    ensures Legal(spec, s'.hist, w'.a) && AreDecs(s'.hist, w'.p) && WordOk(s', w', spec)
    ensures forall e :: e in w'.c ==> e.id in s'.hist
  {
    Grow(s, s', w, spec);
    assert Quiet(s'.hist, w'.c);
    if PendingBit(s.x) { PendingComplete(s, s', w, w', id, op, res); }
  }

  lemma PlaceInCOrder(s: State, s': State, w: Lin, spec: Spec, id: OpId, op: Op, res: Res, w': Lin)
    requires Inv(s, w, spec) && Completes(s, s', id, op, res) && Unplaced(w, id)
    requires w' == w.(c := w.c + [Entry(id, res)])
    ensures PartsInOrder(s'.hist, w')
  {
    Grow(s, s', w, spec);
    GrowOrder(s, s', w, spec);
    PlaceQuiet(s, s', w, Entry(id, res));
  }

  lemma PlaceInCPcs(s: State, s': State, w: Lin, id: OpId, op: Op, res: Res, w': Lin)
    requires PcsOk(s, w) && AreDecs(s.hist, w.p) && Completes(s, s', id, op, res)
    requires Flagged(s.x) && Flagged(s'.x) && Answered(s.hist, Order(s, w))
    requires w' == w.(c := w.c + [Entry(id, res)])
    ensures PcsOk(s', w') && Answered(s'.hist, Order(s', w'))
  {
    assert Order(s', w') == Order(s, w) + [Entry(id, res)];
    PendingAreDecs(s.hist, w.p);
    PcsComplete(s, s', w, w', id, op, res);
    AnsweredComplete(s, s', Order(s, w), Order(s', w'), id, op, res);
  }

  /** Move the decrement at `i` to the end of the list. */
  ghost function ToLast(p: seq<OpId>, i: nat): seq<OpId>
    requires i < |p|
  {
    Without(p, i) + [p[i]]
  }

  lemma ToLastFacts(h: History, p: seq<OpId>, i: nat)
    requires AreDecs(h, p) && Distinct(p) && i < |p|
    ensures AreDecs(h, ToLast(p, i)) && Units(h, ToLast(p, i)) == Units(h, p)
    ensures Distinct(ToLast(p, i))
    ensures forall k :: k in ToLast(p, i) <==> k in p
  {
    UnitsWithout(h, p, i);
    UnitsSnoc(h, Without(p, i), p[i]);
    WithoutFacts(p, i);
    var q := Without(p, i);
    forall j | 0 <= j < |q| ensures q[j] != p[i] { assert q[j] in q; }
  }

  /** While nothing in `p` has returned, its order is free. */
  lemma ReorderPending(h: History, w: Lin, q: seq<OpId>)
    requires PartsInOrder(h, w) && Distinct(q) && (forall k :: k in q <==> k in w.p)
    requires forall j, k :: 0 <= j < k < |q| ==> !RetBefore(h, q[k], q[j])
    ensures PartsInOrder(h, w.(p := q))
  {
  }

  /**
   The decrement `w.p[i]` answers true: either it has just set the zero flag, or it has just claimed
   the flag that a load set on its behalf. It becomes the last of the decrements that reach zero.
   */
  lemma {:induction false} ClaimZero(s: State, s': State, w: Lin, spec: Spec, i: nat, id: OpId, arg: nat, w': Lin)
    requires Inv(s, w, spec) && i < |w.p| && w.p[i] == id
    requires s.x == 0 || (Flagged(s.x) && PendingBit(s.x))
    requires Completes(s, s', id, Dec(arg), Bool(true)) && s'.x == ZERO_FLAG && s'.owned == s.owned
    requires w' == w.(p := ToLast(w.p, i))
    ensures Inv(s', w', spec)
  {
    ClaimZeroWord(s, s', w, spec, i, id, arg, w');
    ClaimZeroOrder(s, s', w, spec, i, id, arg, w');
    PendingUnreturned(s, w, spec);
    ClaimZeroPcs(s, s', w, i, id, arg, w');
    Grow(s, s', w, spec);
  }

  lemma ClaimZeroWord(s: State, s': State, w: Lin, spec: Spec, i: nat, id: OpId, arg: nat, w': Lin)
    requires Inv(s, w, spec) && i < |w.p| && w.p[i] == id
    requires s.x == 0 || (Flagged(s.x) && PendingBit(s.x))
    requires Completes(s, s', id, Dec(arg), Bool(true)) && s'.x == ZERO_FLAG && s'.owned == s.owned
    requires w' == w.(p := ToLast(w.p, i))
    ensures Legal(spec, s'.hist, w'.a) && AreDecs(s'.hist, w'.p) && WordOk(s', w', spec)
  {
    Grow(s, s', w, spec);
    assert Count(spec, s'.hist, w.a) == Units(s'.hist, w.p) && Quiet(s'.hist, w.c) && s'.owned == 0;
    ClaimedWord(s, s', w, spec, i, id, arg, w');
  }

  lemma ClaimedWord(s: State, s': State, w: Lin, spec: Spec, i: nat, id: OpId, arg: nat, w': Lin)
    requires AreDecs(s'.hist, w.p) && Distinct(w.p) && i < |w.p| && w.p[i] == id
    requires Count(spec, s'.hist, w.a) == Units(s'.hist, w.p) && Quiet(s'.hist, w.c)
    requires Completes(s, s', id, Dec(arg), Bool(true)) && s'.x == ZERO_FLAG && s'.owned == 0
    requires w' == w.(p := ToLast(w.p, i))
    ensures AreDecs(s'.hist, w'.p) && WordOk(s', w', spec)
  {
    ToLastFacts(s'.hist, w.p, i);
  }

  lemma ClaimZeroOrder(s: State, s': State, w: Lin, spec: Spec, i: nat, id: OpId, arg: nat, w': Lin)
    requires Inv(s, w, spec) && i < |w.p| && w.p[i] == id && AllPending(s, w)
    requires Completes(s, s', id, Dec(arg), Bool(true))
    requires w' == w.(p := ToLast(w.p, i))
    ensures PartsInOrder(s'.hist, w')
  {
    Grow(s, s', w, spec);
    GrowOrder(s, s', w, spec);
    PendingUnreturned(s, w, spec);
    ToLastFacts(s.hist, w.p, i);
    var q := w'.p;
    forall j, k | 0 <= j < k < |q| ensures !RetBefore(s'.hist, q[k], q[j]) {
      assert q[k] in w.p && q[j] in w.p;
    }
    ReorderPending(s'.hist, w, q);
  }

  lemma ClaimZeroPcs(s: State, s': State, w: Lin, i: nat, id: OpId, arg: nat, w': Lin)
    requires PcsOk(s, w) && AreDecs(s.hist, w.p) && Distinct(w.p) && i < |w.p| && w.p[i] == id
    requires s.x == 0 || Flagged(s.x)
    requires s.x == 0 ==> w.c == []
    requires Answered(s.hist, Order(s, w)) && forall k :: k in w.p ==> !Returned(s.hist, k)
    requires Completes(s, s', id, Dec(arg), Bool(true)) && s'.x == ZERO_FLAG
    requires w' == w.(p := ToLast(w.p, i))
    ensures PcsOk(s', w') && Answered(s'.hist, Order(s', w'))
  {
    PendingAreDecs(s.hist, w.p);
    ToLastFacts(s.hist, w.p, i);
    var l, l' := Order(s, w), Order(s', w');
    BlockIds(w.p);
    BlockIds(w'.p);
    assert Entry(id, Bool(true)) in l' by { assert Block(w'.p)[|w'.p| - 1] in Block(w'.p); }
    forall e | e in l && e.id !in w.p ensures e in l' {
    }
    PcsComplete(s, s', w, w', id, Dec(arg), Bool(true));
  }

  lemma BlockIds(p: seq<OpId>)
    ensures forall e :: e in Block(p) ==> e.id in p
  {
    forall e | e in Block(p) ensures e.id in p {
      var j :| 0 <= j < |p| && Block(p)[j] == e;
    }
  }

  /** A load that reads 0 sets the flag, leaves the claim open, and answers 0. */
  lemma {:induction false} ZeroByLoad(s: State, s': State, w: Lin, spec: Spec, id: OpId, w': Lin)
    requires Inv(s, w, spec) && s.x == 0 && Completes(s, s', id, Load, Value(0)) && Unplaced(w, id)
    requires s'.x == ZERO_FLAG + ZERO_PENDING && s'.owned == s.owned
    requires w' == w.(c := [Entry(id, Value(0))])
    ensures Inv(s', w', spec)
  {
    ZeroByLoadWord(s, s', w, spec, id, w');
    PlaceInCOrder(s, s', w, spec, id, Load, Value(0), w');
    ZeroByLoadPcs(s, s', w, id, w');
  }

  lemma ZeroByLoadWord(s: State, s': State, w: Lin, spec: Spec, id: OpId, w': Lin)
    requires Inv(s, w, spec) && s.x == 0 && Completes(s, s', id, Load, Value(0)) && Unplaced(w, id)
    requires s'.x == ZERO_FLAG + ZERO_PENDING && s'.owned == s.owned
    requires w' == w.(c := [Entry(id, Value(0))])
    ensures Legal(spec, s'.hist, w'.a) && AreDecs(s'.hist, w'.p) && WordOk(s', w', spec)
    ensures forall e :: e in w'.c ==> e.id in s'.hist
  {
    Grow(s, s', w, spec);
    assert Count(spec, s'.hist, w.a) == Units(s'.hist, w.p) && w.p != [] && AllPending(s, w) && s'.owned == 0;
    FlaggedWord(s, s', w, spec, id, w');
  }

  lemma FlaggedWord(s: State, s': State, w: Lin, spec: Spec, id: OpId, w': Lin)
    requires AreDecs(s'.hist, w.p) && Count(spec, s'.hist, w.a) == Units(s'.hist, w.p) && w.p != []
    requires AllPending(s, w) && Completes(s, s', id, Load, Value(0)) && id !in w.p
    requires s'.x == ZERO_FLAG + ZERO_PENDING && s'.owned == 0
    requires w' == w.(c := [Entry(id, Value(0))])
    ensures WordOk(s', w', spec)
    ensures forall e :: e in w'.c ==> e.id in s'.hist
  {
    PendingComplete(s, s', w, w', id, Load, Value(0));
    assert Quiet(s'.hist, w'.c);
  }

  lemma ZeroByLoadPcs(s: State, s': State, w: Lin, id: OpId, w': Lin)
    requires PcsOk(s, w) && AreDecs(s.hist, w.p) && s.x == 0 && Answered(s.hist, Order(s, w))
    requires Completes(s, s', id, Load, Value(0)) && s'.x == ZERO_FLAG + ZERO_PENDING
    requires w' == w.(c := [Entry(id, Value(0))])
    ensures PcsOk(s', w') && Answered(s'.hist, Order(s', w'))
  {
    PendingAreDecs(s.hist, w.p);
    BlockIds(w.p);
    PcsComplete(s, s', w, w', id, Load, Value(0));
    AnsweredComplete(s, s', Order(s, w), Order(s', w'), id, Load, Value(0));
  }

  /** A decrement that finds zero already claimed answers false. */
  lemma {:induction false} FinishFalse(s: State, s': State, w: Lin, spec: Spec, id: OpId, arg: nat)
    requires Inv(s, w, spec) && Flagged(s.x) && !PendingBit(s.x)
    requires Completes(s, s', id, Dec(arg), Bool(false)) && id in w.p && id != w.p[|w.p| - 1]
    requires Flagged(s'.x) && s'.x < WORD && !PendingBit(s'.x) && s'.owned == 0
    ensures Inv(s', w, spec)
  {
    FinishFalseWord(s, s', w, spec, id, arg);
    GrowOrder(s, s', w, spec);
    FinishFalsePcs(s, s', w, id, arg);
  }

  lemma FinishFalseWord(s: State, s': State, w: Lin, spec: Spec, id: OpId, arg: nat)
    requires Inv(s, w, spec) && Flagged(s.x) && !PendingBit(s.x)
    requires Completes(s, s', id, Dec(arg), Bool(false))
    requires Flagged(s'.x) && s'.x < WORD && !PendingBit(s'.x) && s'.owned == 0
    ensures Legal(spec, s'.hist, w.a) && AreDecs(s'.hist, w.p) && WordOk(s', w, spec)
    ensures forall e :: e in w.c ==> e.id in s'.hist
  {
    Grow(s, s', w, spec);
  }

  lemma FinishFalsePcs(s: State, s': State, w: Lin, id: OpId, arg: nat)
    requires PcsOk(s, w) && AreDecs(s.hist, w.p) && Flagged(s.x) && Flagged(s'.x) && Answered(s.hist, Order(s, w))
    requires Completes(s, s', id, Dec(arg), Bool(false)) && id in w.p && id != w.p[|w.p| - 1]
    ensures PcsOk(s', w) && Answered(s'.hist, Order(s', w))
  {
    PendingAreDecs(s.hist, w.p);
    PcsComplete(s, s', w, w, id, Dec(arg), Bool(false));
    var j :| 0 <= j < |w.p| && w.p[j] == id;
    assert Block(w.p)[j] == Entry(id, Bool(false));
    assert Block(w.p)[j] in Block(w.p);
    AnsweredComplete(s, s', Order(s, w), Order(s', w), id, Dec(arg), Bool(false));
  }

  /** A decrement that has its place already answers false. */
  lemma {:induction false} FinishSettled(s: State, s': State, w: Lin, spec: Spec, id: OpId, arg: nat)
    requires Inv(s, w, spec) && Completes(s, s', id, Dec(arg), Bool(false)) && Entry(id, Bool(false)) in w.a
    requires s'.owned == s.owned && (s'.x == s.x || (Flagged(s.x) && !PendingBit(s.x) && s'.x == ZERO_FLAG))
    ensures Inv(s', w, spec)
  {
    GrowOrder(s, s', w, spec);
    FinishSettledWord(s, s', w, spec, id, arg);
    FinishSettledPcs(s, s', w, id, arg);
  }

  lemma FinishSettledWord(s: State, s': State, w: Lin, spec: Spec, id: OpId, arg: nat)
    requires Inv(s, w, spec) && Completes(s, s', id, Dec(arg), Bool(false)) && Entry(id, Bool(false)) in w.a
    requires s'.owned == s.owned && (s'.x == s.x || (Flagged(s.x) && !PendingBit(s.x) && s'.x == ZERO_FLAG))
    ensures Legal(spec, s'.hist, w.a) && AreDecs(s'.hist, w.p) && WordOk(s', w, spec)
    ensures forall e :: e in w.c ==> e.id in s'.hist
  {
    hide Legal, PcsOk, InOrder, Answered;
    Grow(s, s', w, spec);
    if AllPending(s, w) { PendingComplete(s, s', w, w, id, Dec(arg), Bool(false)); }
  }

  lemma FinishSettledPcs(s: State, s': State, w: Lin, id: OpId, arg: nat)
    requires PcsOk(s, w) && AreDecs(s.hist, w.p) && Flagged(s.x) == Flagged(s'.x) && Answered(s.hist, Order(s, w))
    requires Completes(s, s', id, Dec(arg), Bool(false)) && Entry(id, Bool(false)) in w.a
    ensures PcsOk(s', w) && Answered(s'.hist, Order(s', w))
  {
    PendingAreDecs(s.hist, w.p);
    PcsComplete(s, s', w, w, id, Dec(arg), Bool(false));
    AnsweredComplete(s, s', Order(s, w), Order(s', w), id, Dec(arg), Bool(false));
  }

  // --- Opening an operation ------------------------------------------------------------------

  /** A load has read 0 and will come back for its second access. */
  lemma {:induction false} OpenLoad(s: State, s': State, w: Lin, spec: Spec, t: Tid)
    requires Inv(s, w, spec) && LoadSlow(s, s', t)
    ensures Inv(s', w, spec)
  {
    hide Legal, PartsInOrder, PcsOk, Answered, AllPending, Quiet;
    Grow(s, s', w, spec);
    GrowOrder(s, s', w, spec);
    if AllPending(s, w) { OpenKeepsPending(s, s', w); }
    OpenLoadPcs(s, s', w, spec, t);
  }

  lemma OpenKeepsPending(s: State, s': State, w: Lin)
    requires AllPending(s, w)
    requires forall t :: t in s.pc ==> t in s'.pc && s'.pc[t] == s.pc[t]
    ensures AllPending(s', w)
  {
    forall k | k in w.p ensures exists t :: t in s'.pc && IsDecPc(s'.pc[t]) && s'.pc[t].id == k {
      var t :| t in s.pc && IsDecPc(s.pc[t]) && s.pc[t].id == k;
      assert t in s'.pc;
    }
  }

  lemma OpenLoadPcs(s: State, s': State, w: Lin, spec: Spec, t: Tid)
    requires Inv(s, w, spec) && LoadSlow(s, s', t)
    ensures PcsOk(s', w) && Answered(s'.hist, Order(s', w))
  {
    hide Legal, PartsInOrder, AllPending;
    LegalIds(spec, s.hist, w.a);
  }

  /** A decrement has brought the word to zero and will come back to set the flag. */
  lemma {:induction false} OpenDec(s: State, s': State, w: Lin, spec: Spec, t: Tid, arg: nat, w': Lin)
    requires Inv(s, w, spec) && Decrement(s, s', t, arg) && s.x == arg
    requires w' == w.(p := w.p + [s.clock])
    ensures Inv(s', w', spec)
  {
    hide Legal, PartsInOrder, PcsOk, Answered, AllPending, Quiet;
    assert !Flagged(s.x) && s'.x == 0;
    OpenDecGrow(s, s', w, spec, t, arg);
    OpenDecWord(s, s', w, spec, t, arg, w');
    OpenDecOrder(s, s', w, t, arg, w');
    OpenDecPcs(s, s', w, t, arg, w');
  }

  lemma OpenDecGrow(s: State, s': State, w: Lin, spec: Spec, t: Tid, arg: nat)
    requires Inv(s, w, spec) && Decrement(s, s', t, arg) && s.x == arg && !Flagged(s.x)
    ensures Legal(spec, s'.hist, w.a) && AreDecs(s'.hist, w.p)
    ensures Count(spec, s'.hist, w.a) == arg + Units(s'.hist, w.p)
    ensures PartsInOrder(s'.hist, w)
    ensures forall e :: e in w.a || e in w.c ==> e.id in s.hist
    ensures forall k :: k in w.p ==> k in s.hist
  {
    Grow(s, s', w, spec);
    GrowOrder(s, s', w, spec);
  }

  lemma OpenDecWord(s: State, s': State, w: Lin, spec: Spec, t: Tid, arg: nat, w': Lin)
    requires Legal(spec, s'.hist, w.a) && AreDecs(s'.hist, w.p) && w.c == []
    requires Count(spec, s'.hist, w.a) == arg + Units(s'.hist, w.p)
    requires AllPending(s, w) && forall u :: u in s.pc ==> !s.pc[u].DecXchg?
    requires Decrement(s, s', t, arg) && s.x == arg == s.owned && s'.x == 0
    requires w' == w.(p := w.p + [s.clock])
    ensures AreDecs(s'.hist, w'.p) && WordOk(s', w', spec)
  {
    UnitsSnoc(s'.hist, w.p, s.clock);
    assert AllPending(s', w') by {
      OpenKeepsPending(s, s', w);
      assert s'.pc[t].id == s.clock;
    }
  }

  lemma OpenDecOrder(s: State, s': State, w: Lin, t: Tid, arg: nat, w': Lin)
    requires PartsInOrder(s'.hist, w) && w.c == [] && (forall id :: id in s.hist ==> id < s.clock)
    requires forall e :: e in w.a ==> e.id in s.hist
    requires forall k :: k in w.p ==> k in s.hist
    requires Decrement(s, s', t, arg) && s.x == arg
    requires w' == w.(p := w.p + [s.clock])
    ensures PartsInOrder(s'.hist, w')
  {
    assert !Returned(s'.hist, s.clock);
    forall j, k | 0 <= j < k < |w'.p| ensures w'.p[j] != w'.p[k] && !RetBefore(s'.hist, w'.p[k], w'.p[j]) {
      assert w'.p[j] == w.p[j] && w.p[j] in w.p;
    }
  }

  lemma OpenDecPcs(s: State, s': State, w: Lin, t: Tid, arg: nat, w': Lin)
    requires PcsOk(s, w) && (forall id :: id in s.hist ==> id < s.clock) && Answered(s.hist, Order(s, w))
    requires Decrement(s, s', t, arg) && s.x == arg && !Flagged(s.x) && s'.x == 0
    requires w' == w.(p := w.p + [s.clock])
    ensures PcsOk(s', w') && Answered(s'.hist, Order(s', w'))
  {
  }

  /** A decrement that lost its second access to a load goes on to claim the flag. */
  lemma {:induction false} GoOnToClaim(s: State, s': State, w: Lin, spec: Spec, t: Tid)
    requires Inv(s, w, spec) && DecrementCas(s, s', t) && s.x != 0 && PendingBit(s.x) && Flagged(s.x)
    ensures Inv(s', w, spec)
  {
    GoOnPending(s, s', w, t);
    GoOnPcs(s, s', w, t);
    assert WordOk(s', w, spec);
  }

  lemma GoOnPending(s: State, s': State, w: Lin, t: Tid)
    requires AllPending(s, w) && DecrementCas(s, s', t) && s.x != 0 && PendingBit(s.x)
    ensures AllPending(s', w)
  {
    forall k | k in w.p ensures exists u :: u in s'.pc && IsDecPc(s'.pc[u]) && s'.pc[u].id == k {
      var u :| u in s.pc && IsDecPc(s.pc[u]) && s.pc[u].id == k;
      assert u in s'.pc;
    }
  }

  lemma GoOnPcs(s: State, s': State, w: Lin, t: Tid)
    requires PcsOk(s, w) && DecrementCas(s, s', t) && s.x != 0 && PendingBit(s.x)
    ensures PcsOk(s', w)
  {
  }

  // ---------------------------------------------------------------------------------------
  // The theorems
  // ---------------------------------------------------------------------------------------

  lemma InitInv(s: State, spec: Spec)
    requires Init(s, spec.start)
    ensures Inv(s, Lin([], [], []), spec)
  {
  }

  lemma IndexOf(p: seq<OpId>, k: OpId) returns (i: nat)
    requires k in p
    ensures i < |p| && p[i] == k
  {
    i :| 0 <= i < |p| && p[i] == k;
  }

  /** The undercount is the units of the decrements that have reached zero but not finished. */
  lemma LoadGap(s: State, w: Lin, spec: Spec)
    requires Inv(s, w, spec) && !Flagged(s.x)
    ensures Count(spec, s.hist, w.a) - Shown(s.x) == Units(s.hist, w.p)
    ensures Shown(s.x) == Count(spec, s.hist, w.a) <==> w.p == []
  {
    if w.p != [] {
      var k := w.p[|w.p| - 1];
      assert k in w.p && IsDec(s.hist, k);
    }
  }

  /** The decrements of `wins` that owe their second access have no place in `a` yet. */
  ghost predicate Unsettled(s: State, w: Lin, wins: set<OpId>)
  {
    forall t :: t in s.pc && IsDecPc(s.pc[t]) && s.pc[t].id in wins ==> s.pc[t].id in w.p
  }

  /** While the count is not zero, pending decrements can be given their places, with the answer false. */
  lemma {:induction false} Settle(s: State, w: Lin, spec: Spec) returns (w': Lin)
    requires Inv(s, w, spec) && !Flagged(s.x) && s.x > 0
    ensures Inv(s, w', spec) && w'.p == []
  {
    w' := Lin(w.a + Falses(w.p), [], []);
    FalsesLegal(spec, s.hist, w.a, w.p);
    hide Legal, InOrder, PcsOk, Answered, Falses;
    SettleOrder(s.hist, w);
    SettlePcs(s, w, w');
  }

  lemma SettleOrder(h: History, w: Lin)
    requires PartsInOrder(h, w)
    ensures InOrder(h, w.a + Falses(w.p))
  {
    var l, m := w.a + Falses(w.p), |w.a|;
    forall i, j | 0 <= i < j < |l| ensures l[i].id != l[j].id && !RetBefore(h, l[j].id, l[i].id) {
      if j < m {
        assert l[i] == w.a[i] && l[j] == w.a[j];
      } else {
        assert l[j].id == w.p[j - m];
        assert w.p[j - m] in w.p;
        if i < m { assert l[i] == w.a[i]; } else { assert l[i].id == w.p[i - m]; }
      }
    }
  }

  lemma SettlePcs(s: State, w: Lin, w': Lin)
    requires PcsOk(s, w) && AreDecs(s.hist, w.p) && !Flagged(s.x) && Answered(s.hist, w.a)
    requires w' == Lin(w.a + Falses(w.p), [], [])
    ensures PcsOk(s, w') && Answered(s.hist, w'.a)
  {
    PendingAreDecs(s.hist, w.p);
    forall e | e in Falses(w.p) ensures e.id in w.p { var j :| 0 <= j < |w.p| && Falses(w.p)[j] == e; }
    forall k | k in w.p ensures Entry(k, Bool(false)) in w'.a {
      var j := IndexOf(w.p, k);
      assert w'.a[|w.a| + j] == Entry(k, Bool(false));
    }
  }

  lemma {:induction false} LoadKeeps(s: State, s': State, w: Lin, spec: Spec, step: Step, wins: set<OpId>) returns (w': Lin)
    requires Inv(s, w, spec) && Unsettled(s, w, wins) && NextStep(s, s', step)
    requires step.LoadFastStep? || step.LoadSlowStep? || step.LoadFinishStep?
    requires spec.exact ==> Harmless(s, step, wins)
    ensures Inv(s', w', spec) && Unsettled(s', w', wins)
  {
    var t := step.t;
    var res := Value(Shown(s.x));
    if step.LoadSlowStep? {
      OpenLoad(s, s', w, spec, t);
      return w;
    }
    var w1 := w;
    if spec.exact && NonzeroLoad(s, step) { w1 := Settle(s, w, spec); }
    var id := if step.LoadFastStep? then s.clock else s.pc[t].id;
    if step.LoadFastStep? { WholeCompletes(s, s', w1, spec, Load, res); }
    else { LoadFinishCompletes(s, s', w1, t, res); }
    if s.x == 0 {
      assert step.LoadFinishStep?;
      w' := w.(c := [Entry(id, Value(0))]);
      ZeroByLoad(s, s', w, spec, id, w');
    } else if Flagged(s.x) {
      w' := w.(c := w.c + [Entry(id, res)]);
      PlaceInC(s, s', w, spec, id, Load, res, w');
    } else {
      w' := w1.(a := w1.a + [Entry(id, res)]);
      LoadGap(s, w1, spec);
      PlaceInA(s, s', w1, spec, id, Load, res, w');
    }
  }

  lemma IncWord(x: nat, arg: nat)
    requires x < WORD && x % ZERO_PENDING + arg < ZERO_PENDING && (!Flagged(x) ==> x < ZERO_PENDING)
    ensures (x + arg) % WORD == x + arg
    ensures !Flagged(x) ==> x + arg < ZERO_PENDING
    ensures Flagged(x) ==> PendingBit(x + arg) == PendingBit(x)
  {
  }

  lemma {:induction false} IncKeeps(s: State, s': State, w: Lin, spec: Spec, t: Tid, arg: nat) returns (w': Lin)
    requires Inv(s, w, spec) && Increment(s, s', t, arg)
    ensures Inv(s', w', spec) && w'.p == w.p
  {
    hide Inv, Increment, Completes, Unplaced;
    WordBound(s, w, spec);
    IncCompletes(s, s', w, spec, t, arg);
    IncWord(s.x, arg);
    if Flagged(s.x) {
      w' := w.(c := w.c + [Entry(s.clock, Bool(false))]);
      PlaceInC(s, s', w, spec, s.clock, Inc(arg), Bool(false), w');
    } else {
      LiveCountPositive(s, w, spec);
      w' := IncLive(s, s', w, spec, t, arg);
    }
  }

  lemma WordBound(s: State, w: Lin, spec: Spec)
    requires Inv(s, w, spec)
    ensures s.x < WORD && (!Flagged(s.x) ==> s.x < ZERO_PENDING) && (Flagged(s.x) ==> s.owned == 0)
  {
  }

  lemma IncCompletes(s: State, s': State, w: Lin, spec: Spec, t: Tid, arg: nat)
    requires Inv(s, w, spec) && Increment(s, s', t, arg) && s.x < WORD
    ensures s.x % ZERO_PENDING + arg < ZERO_PENDING && s'.x == (s.x + arg) % WORD
    ensures s'.owned == if Flagged(s.x) then s.owned else s.owned + arg
    ensures Completes(s, s', s.clock, Inc(arg), Bool(!Flagged(s.x))) && Unplaced(w, s.clock)
  {
    hide Inv, Completes, Unplaced;
    WholeCompletes(s, s', w, spec, Inc(arg), Bool(!Flagged(s.x)));
  }

  lemma {:induction false} IncLive(s: State, s': State, w: Lin, spec: Spec, t: Tid, arg: nat) returns (w': Lin)
    requires Inv(s, w, spec) && !Flagged(s.x) && Count(spec, s.hist, w.a) > 0
    requires Increment(s, s', t, arg) && s'.x == s.x + arg < ZERO_PENDING
    requires Completes(s, s', s.clock, Inc(arg), Bool(true)) && Unplaced(w, s.clock)
    ensures Inv(s', w', spec) && w'.p == w.p
  {
    w' := w.(a := w.a + [Entry(s.clock, Bool(true))]);
    PlaceInA(s, s', w, spec, s.clock, Inc(arg), Bool(true), w');
  }

  /** Before the flag is set, at least one unit has not been given back for good. */
  lemma LiveCountPositive(s: State, w: Lin, spec: Spec)
    requires Inv(s, w, spec) && !Flagged(s.x)
    ensures Count(spec, s.hist, w.a) > 0
  {
    if s.x == 0 {
      assert IsDec(s.hist, w.p[|w.p| - 1]);
    }
  }

  lemma {:induction false} DecKeeps(s: State, s': State, w: Lin, spec: Spec, t: Tid, arg: nat) returns (w': Lin)
    requires Inv(s, w, spec) && Decrement(s, s', t, arg)
    ensures Inv(s', w', spec) && forall k :: k in w.p || (s.x == arg && k == s.clock) ==> k in w'.p
  {
    if s.x == arg {
      w' := w.(p := w.p + [s.clock]);
      OpenDec(s, s', w, spec, t, arg, w');
    } else {
      WholeCompletes(s, s', w, spec, Dec(arg), Bool(false));
      w' := w.(a := w.a + [Entry(s.clock, Bool(false))]);
      PlaceInA(s, s', w, spec, s.clock, Dec(arg), Bool(false), w');
    }
  }

  lemma {:induction false} DecCasKeeps(s: State, s': State, w: Lin, spec: Spec, t: Tid) returns (w': Lin)
    requires Inv(s, w, spec) && DecrementCas(s, s', t) && (Won(s'.hist, s.pc[t].id) ==> s.pc[t].id in w.p)
    ensures Inv(s', w', spec) && forall k :: k in w.p && k != s.pc[t].id ==> k in w'.p
    ensures s.pc[t].id in w.p && t in s'.pc ==> s.pc[t].id in w'.p
  {
    var id, arg := s.pc[t].id, s.pc[t].arg;
    if s.x != 0 && PendingBit(s.x) {
      w' := w;
      GoOnToClaim(s, s', w, spec, t);
      return;
    }
    DecFinishCompletes(s, s', w, t, Bool(s.x == 0));
    if id !in w.p {
      w' := w;
      FinishSettled(s, s', w, spec, id, arg);
      return;
    }
    var i := IndexOf(w.p, id);
    if s.x == 0 {
      w' := w.(p := ToLast(w.p, i));
      ToLastFacts(s.hist, w.p, i);
      ClaimZero(s, s', w, spec, i, id, arg, w');
    } else if Flagged(s.x) {
      w' := w;
      FinishFalse(s, s', w, spec, id, arg);
    } else {
      w' := Lin(w.a + [Entry(id, Bool(false))], Without(w.p, i), []);
      WithoutFacts(w.p, i);
      PlaceStale(s, s', w, spec, i, id, arg, w');
    }
  }

  lemma {:induction false} DecXchgKeeps(s: State, s': State, w: Lin, spec: Spec, t: Tid) returns (w': Lin)
    requires Inv(s, w, spec) && DecrementExchange(s, s', t) && (Won(s'.hist, s.pc[t].id) ==> s.pc[t].id in w.p)
    ensures Inv(s', w', spec) && forall k :: k in w.p ==> k in w'.p
  {
    var id, arg := s.pc[t].id, s.pc[t].arg;
    w' := w;
    DecFinishCompletes(s, s', w, t, Bool(PendingBit(s.x)));
    if id !in w.p {
      FinishSettled(s, s', w, spec, id, arg);
      return;
    }
    var i := IndexOf(w.p, id);
    if PendingBit(s.x) {
      w' := w.(p := ToLast(w.p, i));
      ToLastFacts(s.hist, w.p, i);
      ClaimZero(s, s', w, spec, i, id, arg, w');
    } else {
      FinishFalse(s, s', w, spec, id, arg);
    }
  }

  lemma {:induction false} StepKeeps(s: State, s': State, w: Lin, spec: Spec, step: Step, wins: set<OpId>) returns (w': Lin)
    requires Inv(s, w, spec) && Unsettled(s, w, wins) && NextStep(s, s', step)
    requires Wins(s'.hist) <= wins && (spec.exact ==> Harmless(s, step, wins))
    ensures Inv(s', w', spec) && Unsettled(s', w', wins)
  {
    hide Inv, Wins, Won, LoadFast, LoadSlow, LoadFinish, DecrementCas, DecrementExchange, Unsettled, Harmless;
    match step
    case LoadFastStep(_) => w' := LoadKeeps(s, s', w, spec, step, wins);
    case LoadSlowStep(_) => w' := LoadKeeps(s, s', w, spec, step, wins);
    case LoadFinishStep(_) => w' := LoadKeeps(s, s', w, spec, step, wins);
    case IncStep(t, arg) => w' := IncKeeps(s, s', w, spec, t, arg); StaysUnsettled(s, s', w, w', wins);
    case DecStep(t, arg) => w' := DecKeeps(s, s', w, spec, t, arg); StaysUnsettled(s, s', w, w', wins);
    case DecCasStep(t) => WinnerIn(s, s', w, spec, t, wins); w' := DecCasKeeps(s, s', w, spec, t); OneUnsettled(s, s', w, w', spec, t, wins);
    case DecXchgStep(t) => WinnerIn(s, s', w, spec, t, wins); w' := DecXchgKeeps(s, s', w, spec, t); OneUnsettled(s, s', w, w', spec, t, wins);
  }

  lemma StaysUnsettled(s: State, s': State, w: Lin, w': Lin, wins: set<OpId>)
    requires Unsettled(s, w, wins) && forall k :: k in w.p ==> k in w'.p
    requires forall t :: t in s'.pc ==> (t in s.pc && s'.pc[t] == s.pc[t]) || s'.pc[t].id in w'.p
    ensures Unsettled(s', w', wins)
  {
  }

  /** The decrement that is told that it has won had no place before. */
  lemma WinnerIn(s: State, s': State, w: Lin, spec: Spec, t: Tid, wins: set<OpId>)
    requires Inv(s, w, spec) && Unsettled(s, w, wins) && (DecrementCas(s, s', t) || DecrementExchange(s, s', t))
    requires Wins(s'.hist) <= wins
    ensures At(s, t) && (Won(s'.hist, s.pc[t].id) ==> s.pc[t].id in w.p)
  {
    var id := s.pc[t].id;
    if Won(s'.hist, id) { assert id in Wins(s'.hist); }
  }

  lemma OneUnsettled(s: State, s': State, w: Lin, w': Lin, spec: Spec, t: Tid, wins: set<OpId>)
    requires Inv(s, w, spec) && Unsettled(s, w, wins) && (DecrementCas(s, s', t) || DecrementExchange(s, s', t))
    requires forall k :: k in w.p && k != s.pc[t].id ==> k in w'.p
    requires s.pc[t].id in w.p && t in s'.pc ==> s.pc[t].id in w'.p
    ensures Unsettled(s', w', wins)
  {
    hide Legal, InOrder, PartsInOrder, WordOk, Answered;
  }

  /** What has been answered stays answered. */
  lemma WinsGrow(s: State, s': State, step: Step)
    requires NextStep(s, s', step) && (forall id :: id in s.hist ==> id < s.clock)
    requires forall t :: t in s.pc && s.pc[t].id in s.hist ==> s.hist[s.pc[t].id].ret.Open?
    ensures Wins(s.hist) <= Wins(s'.hist)
  {
  }

  lemma {:induction false} RunInv(run: seq<State>, spec: Spec, wins: set<OpId>) returns (w: Lin)
    requires IsRun(run, spec.start) && Wins(run[|run| - 1].hist) <= wins
    requires spec.exact ==> forall i :: 0 <= i < |run| - 1 ==> HarmlessNext(run[i], run[i + 1], wins)
    ensures Inv(run[|run| - 1], w, spec) && Unsettled(run[|run| - 1], w, wins)
  {
    if |run| == 1 {
      w := Lin([], [], []);
      InitInv(run[0], spec);
    } else {
      var m := |run| - 1;
      assert Next(run[m - 1], run[m]) && (spec.exact ==> HarmlessNext(run[m - 1], run[m], wins));
      var step :| NextStep(run[m - 1], run[m], step) && (spec.exact ==> Harmless(run[m - 1], step, wins));
      RunWins(run, spec.start, step);
      var w0 := RunInv(run[..m], spec, wins);
      w := StepKeeps(run[m - 1], run[m], w0, spec, step, wins);
    }
  }

  ghost predicate Tidy(s: State)
  {
    && (forall id :: id in s.hist ==> id < s.clock)
    && (forall t :: t in s.pc ==> s.pc[t].id in s.hist && s.hist[s.pc[t].id].ret.Open?)
    && (forall t, u :: t in s.pc && u in s.pc && t != u ==> s.pc[t].id != s.pc[u].id)
  }

  lemma StepTidy(s: State, s': State, step: Step)
    requires Tidy(s) && NextStep(s, s', step)
    ensures Tidy(s')
  {
  }

  lemma {:induction false} RunTidy(run: seq<State>, desired: nat)
    requires IsRun(run, desired)
    ensures Tidy(run[|run| - 1])
  {
    hide NextStep, Tidy;
    var m := |run| - 1;
    if m > 0 {
      RunTidy(run[..m], desired);
      assert Next(run[m - 1], run[m]);
      var step :| NextStep(run[m - 1], run[m], step);
      StepTidy(run[m - 1], run[m], step);
    } else {
      InitTidy(run[0], desired);
    }
  }

  lemma InitTidy(s: State, desired: nat)
    requires Init(s, desired)
    ensures Tidy(s)
  {
  }

  lemma RunWins(run: seq<State>, desired: nat, step: Step)
    requires IsRun(run, desired) && |run| > 1 && NextStep(run[|run| - 2], run[|run| - 1], step)
    ensures Wins(run[|run| - 2].hist) <= Wins(run[|run| - 1].hist)
  {
    var m := |run| - 1;
    RunTidy(run[..m], desired);
    WinsGrow(run[m - 1], run[m], step);
  }

  /** Every run of the counter linearizes to the sequential sticky counter. */
  lemma Linearizable(run: seq<State>, desired: nat)
    requires IsRun(run, desired)
    ensures var h := run[|run| - 1].hist; exists l :: Linearizes(Spec(desired, false), h, l)
  {
    var s := run[|run| - 1];
    var w := RunInv(run, Spec(desired, false), Wins(s.hist));
    InvLinearizes(s, w, Spec(desired, false));
  }

  /** Somewhere in the run a load reads a nonzero count while a decrement that goes on to win is between its accesses. */
  ghost predicate MissesWinner(run: seq<State>)
    requires |run| > 0
  {
    exists i :: 0 <= i < |run| - 1 && !HarmlessNext(run[i], run[i + 1], Wins(run[|run| - 1].hist))
  }

  /** It linearizes with exact loads as long as no nonzero load meets the decrement that wins. */
  lemma ExactUnlessMissed(run: seq<State>, desired: nat)
    requires IsRun(run, desired) && !MissesWinner(run)
    ensures var h := run[|run| - 1].hist; exists l :: Linearizes(Spec(desired, true), h, l)
  {
    var s := run[|run| - 1];
    var w := RunInv(run, Spec(desired, true), Wins(s.hist));
    InvLinearizes(s, w, Spec(desired, true));
  }

  // --- What a caller can rely on ---------------------------------------------------------------

  /** The answers that tell a caller the counter is zero. */
  ghost predicate SaysZero(h: History, id: OpId)
  {
    Returned(h, id) &&
    match h[id].op
    case Load => h[id].ret.res == Value(0)
    case Inc(_) => h[id].ret.res == Bool(false)
    case Dec(_) => h[id].ret.res == Bool(true)
  }

  ghost predicate PositiveArgs(h: History)
  {
    forall id :: id in h && !h[id].op.Load? ==> h[id].op.arg >= 1
  }

  lemma {:induction false} LegalPrefix(spec: Spec, h: History, l: seq<Entry>, i: nat)
    requires Legal(spec, h, l) && i < |l|
    ensures Legal(spec, h, l[..i]) && l[i].id in h
    ensures SpecAllows(spec, Count(spec, h, l[..i]), h[l[i].id].op, l[i].res)
    ensures Count(spec, h, l[..i + 1]) == SpecNext(Count(spec, h, l[..i]), h[l[i].id].op)
  {
    if i == |l| - 1 {
      assert l[..i + 1] == l;
    } else {
      var m := l[..|l| - 1];
      LegalPrefix(spec, h, m, i);
      assert m[..i] == l[..i] && m[..i + 1] == l[..i + 1];
    }
  }

  /** Once the sequential counter is at zero, it stays there. */
  lemma {:induction false} ZeroStays(spec: Spec, h: History, l: seq<Entry>, i: nat, j: nat)
    requires Legal(spec, h, l) && i <= j <= |l| && Count(spec, h, l[..i]) == 0
    ensures Count(spec, h, l[..j]) == 0
  {
    if i < j {
      ZeroStays(spec, h, l, i, j - 1);
      LegalPrefix(spec, h, l, j - 1);
    }
  }

  lemma EntryOf(spec: Spec, h: History, l: seq<Entry>, id: OpId) returns (i: nat)
    requires Linearizes(spec, h, l) && Returned(h, id)
    ensures i < |l| && l[i] == Entry(id, h[id].ret.res)
  {
    i :| 0 <= i < |l| && l[i] == Entry(id, h[id].ret.res);
  }

  /** A zero answer leaves the sequential counter at zero. */
  lemma SaysZeroIsZero(spec: Spec, h: History, l: seq<Entry>, i: nat)
    requires Linearizes(spec, h, l) && i < |l| && SaysZero(h, l[i].id) && l[i].res == h[l[i].id].ret.res
    ensures Count(spec, h, l[..i + 1]) == 0
  {
    LegalPrefix(spec, h, l, i);
  }

  /** In any linearized history, what is called after a zero answer sees zero too. */
  lemma StickyInHistory(spec: Spec, h: History, l: seq<Entry>, a: OpId, b: OpId)
    requires Linearizes(spec, h, l) && PositiveArgs(h)
    requires SaysZero(h, a) && Returned(h, b) && RetBefore(h, a, b)
    ensures SaysZero(h, b) && (a != b ==> !h[b].op.Dec?)
  {
    if a == b { return; }
    var i := EntryOf(spec, h, l, a);
    var j := EntryOf(spec, h, l, b);
    assert i < j;
    SaysZeroIsZero(spec, h, l, i);
    ZeroStays(spec, h, l, i + 1, j);
    LegalPrefix(spec, h, l, j);
  }

  /** In any linearized history, at most one decrement answers true. */
  lemma OneWinnerInHistory(spec: Spec, h: History, l: seq<Entry>, a: OpId, b: OpId)
    requires Linearizes(spec, h, l) && PositiveArgs(h)
    requires SaysZero(h, a) && h[a].op.Dec? && SaysZero(h, b) && h[b].op.Dec?
    ensures a == b
  {
    var i := EntryOf(spec, h, l, a);
    var j := EntryOf(spec, h, l, b);
    if a != b {
      var lo, hi := if i < j then i else j, if i < j then j else i;
      SaysZeroIsZero(spec, h, l, lo);
      ZeroStays(spec, h, l, lo + 1, hi);
      LegalPrefix(spec, h, l, hi);
    }
  }

  lemma {:induction false} RunArgs(run: seq<State>, desired: nat)
    requires IsRun(run, desired)
    ensures PositiveArgs(run[|run| - 1].hist)
  {
    var m := |run| - 1;
    if m > 0 {
      RunArgs(run[..m], desired);
      assert Next(run[m - 1], run[m]);
    }
  }

  /** An operation called after somebody was told "zero" is told "zero" as well. */
  lemma ZeroIsSticky(run: seq<State>, desired: nat, a: OpId, b: OpId)
    requires IsRun(run, desired)
    requires var h := run[|run| - 1].hist; SaysZero(h, a) && Returned(h, b) && RetBefore(h, a, b)
    ensures SaysZero(run[|run| - 1].hist, b)
  {
    Linearizable(run, desired);
    var h := run[|run| - 1].hist;
    var l :| Linearizes(Spec(desired, false), h, l);
    RunArgs(run, desired);
    StickyInHistory(Spec(desired, false), h, l, a, b);
  }

  /** At most one decrement in the life of the counter answers true. */
  lemma AtMostOneWinner(run: seq<State>, desired: nat, a: OpId, b: OpId)
    requires IsRun(run, desired)
    requires var h := run[|run| - 1].hist; SaysZero(h, a) && h[a].op.Dec? && SaysZero(h, b) && h[b].op.Dec?
    ensures a == b
  {
    Linearizable(run, desired);
    var h := run[|run| - 1].hist;
    var l :| Linearizes(Spec(desired, false), h, l);
    RunArgs(run, desired);
    OneWinnerInHistory(Spec(desired, false), h, l, a, b);
  }

  /** When every unit has been given back and every call has returned, one decrement answered true. */
  lemma SomeWinner(run: seq<State>, desired: nat)
    requires IsRun(run, desired)
    requires var s := run[|run| - 1]; s.owned == 0 && s.pc == map[]
    ensures var h := run[|run| - 1].hist; exists a :: SaysZero(h, a) && h[a].op.Dec?
  {
    var s := run[|run| - 1];
    var spec := Spec(desired, false);
    var w := RunInv(run, spec, Wins(s.hist));
    assert w.p != [];
    var k := w.p[|w.p| - 1];
    assert k in w.p && IsDec(s.hist, k);
    InvLinearizes(s, w, spec);
    var l := Order(s, w);
    assert l[|w.a| + |w.p| - 1] == Entry(k, Bool(true));
    var i := EntryOf(spec, s.hist, l, k);
    assert i == |w.a| + |w.p| - 1;
    assert SaysZero(s.hist, k);
  }

  // --- The counter is wait-free ----------------------------------------------------------------

  /** How many further accesses a call may make. */
  function Rank(pc: PC): nat { if pc.DecCas? then 2 else 1 }

  /** A call that is open either ends with the next access of its thread or has one fewer left; no other thread can delay it. */
  lemma WaitFree(s: State, s': State, step: Step, t: Tid)
    requires NextStep(s, s', step) && t in s.pc
    ensures if step.t == t then
              (t !in s'.pc && Returned(s'.hist, s.pc[t].id)) || (t in s'.pc && s'.pc[t].id == s.pc[t].id && Rank(s'.pc[t]) < Rank(s.pc[t]))
            else t in s'.pc && s'.pc[t] == s.pc[t]
  {
  }

  /** Every call that is open is some thread's. */
  ghost predicate Manned(s: State) { forall id :: id in s.hist && s.hist[id].ret.Open? ==> exists t :: t in s.pc && s.pc[t].id == id }

  lemma StepManned(s: State, s': State, step: Step)
    requires Tidy(s) && Manned(s) && NextStep(s, s', step)
    ensures Manned(s')
  {
    forall id | id in s'.hist && s'.hist[id].ret.Open? ensures exists t :: t in s'.pc && s'.pc[t].id == id {
      if id in s.hist && s.hist[id].ret.Open? {
        var t :| t in s.pc && s.pc[t].id == id;
        assert t in s'.pc && s'.pc[t].id == id;
      } else {
        assert step.t in s'.pc && s'.pc[step.t].id == id;
      }
    }
  }

  lemma {:induction false} RunManned(run: seq<State>, desired: nat)
    requires IsRun(run, desired)
    ensures Manned(run[|run| - 1])
  {
    hide NextStep, Tidy;
    var m := |run| - 1;
    if m > 0 {
      RunManned(run[..m], desired);
      RunTidy(run[..m], desired);
      assert Next(run[m - 1], run[m]);
      var step :| NextStep(run[m - 1], run[m], step);
      StepManned(run[m - 1], run[m], step);
    }
  }

  /** And its thread can always make that access. */
  lemma CanStep(run: seq<State>, desired: nat, id: OpId) returns (s': State, step: Step)
    requires IsRun(run, desired) && id in run[|run| - 1].hist && run[|run| - 1].hist[id].ret.Open?
    ensures NextStep(run[|run| - 1], s', step) && step.t in run[|run| - 1].pc && run[|run| - 1].pc[step.t].id == id
  {
    RunTidy(run, desired);
    RunManned(run, desired);
    var s := run[|run| - 1];
    var t :| t in s.pc && s.pc[t].id == id;
    match s.pc[t]
    case LoadCas(_) =>
      step := LoadFinishStep(t);
      s' := Finish(s, t, Value(Shown(s.x))).(x := if s.x == 0 then ZERO_FLAG + ZERO_PENDING else s.x);
    case DecCas(_, arg) =>
      step := DecCasStep(t);
      s' := if s.x == 0 then Finish(s, t, Bool(true)).(x := ZERO_FLAG)
            else if PendingBit(s.x) then s.(pc := s.pc[t := DecXchg(id, arg)]) else Finish(s, t, Bool(false));
    case DecXchg(_, _) =>
      step := DecXchgStep(t);
      s' := Finish(s, t, Bool(PendingBit(s.x))).(x := ZERO_FLAG);
  }

  // --- Why exact loads need the calm ---------------------------------------------------------

  /**
   Thread 0 drops the only unit and stalls before its second access; thread 1 increments, loads 1,
   and drops its unit; then thread 0 sets the flag and answers true, and thread 1 answers false.
   */
  const UNLUCKY: History :=
    map[0 := Call(Dec(1), Done(6, Bool(true))),
        1 := Call(Inc(1), Done(2, Bool(true))),
        3 := Call(Load, Done(4, Value(1))),
        5 := Call(Dec(1), Done(7, Bool(false)))]

  const TWO_OPEN: History := map[0 := Call(Dec(1), Open), 1 := Call(Inc(1), Done(2, Bool(true)))]

  ghost function Unlucky(i: nat): State
    requires i < 7
  {
    var h3 := TWO_OPEN[3 := Call(Load, Done(4, Value(1)))];
    var h4 := h3[5 := Call(Dec(1), Open)];
    if i == 0 then State(1, 1, map[], 0, map[])
    else if i == 1 then State(0, 0, map[0 := DecCas(0, 1)], 1, map[0 := Call(Dec(1), Open)])
    else if i == 2 then State(1, 1, map[0 := DecCas(0, 1)], 3, TWO_OPEN)
    else if i == 3 then State(1, 1, map[0 := DecCas(0, 1)], 5, h3)
    else if i == 4 then State(0, 0, map[0 := DecCas(0, 1), 1 := DecCas(5, 1)], 6, h4)
    else if i == 5 then State(ZERO_FLAG, 0, map[1 := DecCas(5, 1)], 7, h4[0 := Call(Dec(1), Done(6, Bool(true)))])
    else State(ZERO_FLAG, 0, map[], 8, UNLUCKY)
  }

  lemma UnluckyStart(i: nat)
    requires i < 4
    ensures Next(Unlucky(i), Unlucky(i + 1))
  {
    var s, s' := Unlucky(i), Unlucky(i + 1);
    if i == 0 { assert NextStep(s, s', DecStep(0, 1)); }
    if i == 1 { assert NextStep(s, s', IncStep(1, 1)); }
    if i == 2 { assert NextStep(s, s', LoadFastStep(1)); }
    if i == 3 { assert NextStep(s, s', DecStep(1, 1)); }
  }

  lemma UnluckyEnd(i: nat)
    requires 4 <= i < 6
    ensures Next(Unlucky(i), Unlucky(i + 1))
  {
    var s, s' := Unlucky(i), Unlucky(i + 1);
    if i == 4 {
      assert s.pc - {0} == s'.pc && s'.hist == s.hist[0 := s.hist[0].(ret := Done(6, Bool(true)))];
      assert NextStep(s, s', DecCasStep(0));
    }
    if i == 5 {
      assert s.pc - {1} == s'.pc && UNLUCKY == s.hist[5 := s.hist[5].(ret := Done(7, Bool(false)))];
      assert NextStep(s, s', DecCasStep(1));
    }
  }

  lemma UnluckyRun() returns (run: seq<State>)
    ensures IsRun(run, 1) && run[|run| - 1].hist == UNLUCKY
  {
    hide Next;
    run := seq(7, i requires 0 <= i < 7 => Unlucky(i));
    forall i | 0 <= i < 6 ensures Next(run[i], run[i + 1]) {
      if i < 4 { UnluckyStart(i); } else { UnluckyEnd(i); }
    }
  }

  /** Where the four answers of that history stand in a sequential execution. */
  lemma UnluckyPlaces(l: seq<Entry>) returns (a: nat, b: nat, d: nat)
    requires Linearizes(Spec(1, true), UNLUCKY, l)
    ensures a < |l| && b < d < |l| && Legal(Spec(1, true), UNLUCKY, l)
    ensures l[a] == Entry(0, Bool(true)) && l[b] == Entry(3, Value(1)) && l[d] == Entry(5, Bool(false))
    ensures forall m :: b < m < d ==> l[m].id != 1 && l[m].id != 3 && l[m].id != 5
    ensures forall m :: 0 <= m < |l| && l[m].id == 0 ==> m == a
  {
    var spec := Spec(1, true);
    a := EntryOf(spec, UNLUCKY, l, 0);
    b := EntryOf(spec, UNLUCKY, l, 3);
    d := EntryOf(spec, UNLUCKY, l, 5);
    var i := EntryOf(spec, UNLUCKY, l, 1);
    assert RetBefore(UNLUCKY, 1, 3) && RetBefore(UNLUCKY, 3, 5);
    assert i < b < d;
  }

  /** No sequential counter whose loads show the exact count explains that history. */
  lemma UnluckyIsNotExact(l: seq<Entry>)
    ensures !Linearizes(Spec(1, true), UNLUCKY, l)
  {
    hide Linearizes, Legal, Count;
    var spec := Spec(1, true);
    if Linearizes(spec, UNLUCKY, l) {
      var a, b, d := UnluckyPlaces(l);
      LegalPrefix(spec, UNLUCKY, l, a);
      if a < d { ZeroStays(spec, UNLUCKY, l, a + 1, d); }
      if b + 1 < d { LegalPrefix(spec, UNLUCKY, l, b + 1); }
      LegalPrefix(spec, UNLUCKY, l, b);
      LegalPrefix(spec, UNLUCKY, l, d);
    }
  }
}
