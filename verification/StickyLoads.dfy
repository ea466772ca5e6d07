/**
 When a load of the sticky counter shows the exact count. It does unless it reads while a decrement that goes on to win
 is between its two accesses; then no sequential counter explains the history.
 */
module StickyLoads {
  import opened StickyCounter

  ghost predicate Exact(h: History, desired: nat) { exists l :: Linearizes(Spec(desired, true), h, l) }

  // ---------------------------------------------------------------------------------------
  // The word counts every call that has been made
  // ---------------------------------------------------------------------------------------

  function Effect(op: Op): int {
    match op
    case Load => 0
    case Inc(arg) => arg
    case Dec(arg) => -(arg as int)
  }

  /** What the operations of `ids` named before `n` add together. */
  ghost function Sum(h: History, n: nat, ids: set<OpId>): int {
    if n == 0 then 0 else Sum(h, n - 1, ids) + if n - 1 in ids && n - 1 in h then Effect(h[n - 1].op) else 0
  }

  lemma {:induction false} SumSame(h: History, h': History, n: nat, ids: set<OpId>, ids': set<OpId>)
    requires forall k :: 0 <= k < n ==> (k in ids && k in h <==> k in ids' && k in h')
    requires forall k :: 0 <= k < n && k in ids && k in h ==> h[k].op == h'[k].op
    ensures Sum(h, n, ids) == Sum(h', n, ids')
  {
    if n > 0 { SumSame(h, h', n - 1, ids, ids'); }
  }

  lemma {:induction false} SumAdd(h: History, n: nat, ids: set<OpId>, k: OpId)
    requires k < n && k in h && k !in ids
    ensures Sum(h, n, ids + {k}) == Sum(h, n, ids) + Effect(h[k].op)
  {
    if k < n - 1 { SumAdd(h, n - 1, ids, k); } else { SumSame(h, h, n - 1, ids + {k}, ids); }
  }

  /** Leaving out a decrement, and no increment, gives more. */
  lemma {:induction false} SumLess(h: History, n: nat, all: set<OpId>, ids: set<OpId>, d: OpId)
    requires ids <= all && d in all && d !in ids && d in h && h[d].op.Dec?
    requires forall k :: 0 <= k < n && k in all && k in h && h[k].op.Inc? ==> k in ids
    ensures Sum(h, n, ids) >= Sum(h, n, all) + if d < n then h[d].op.arg else 0
  {
    if n > 0 { SumLess(h, n - 1, all, ids, d); }
  }

  /** As long as the counter is live, the word is what it began with and what all calls have added, also the unfinished ones. */
  ghost predicate Books(s: State, desired: nat)
  {
    && (forall id :: id in s.hist ==> id < s.clock && (s.hist[id].op.Inc? ==> Returned(s.hist, id)))
    && (forall id :: Returned(s.hist, id) ==> s.hist[id].ret.time < s.clock)
    && (!Flagged(s.x) ==> s.x == desired + Sum(s.hist, s.clock, s.hist.Keys))
  }

  lemma SumAdded(s: State, s': State)
    requires (forall id :: id in s.hist ==> id < s.clock) && s.clock in s'.hist
    requires s'.hist.Keys == s.hist.Keys + {s.clock} && forall id :: id in s.hist ==> s'.hist[id].op == s.hist[id].op
    ensures Sum(s'.hist, s.clock + 1, s'.hist.Keys) == Sum(s.hist, s.clock, s.hist.Keys) + Effect(s'.hist[s.clock].op)
  {
    SumSame(s.hist, s'.hist, s.clock, s.hist.Keys, s'.hist.Keys);
  }

  lemma SumKept(s: State, s': State)
    requires (forall id :: id in s.hist ==> id < s.clock)
    requires s'.hist.Keys == s.hist.Keys && forall id :: id in s.hist ==> s'.hist[id].op == s.hist[id].op
    ensures Sum(s'.hist, s.clock + 1, s'.hist.Keys) == Sum(s.hist, s.clock, s.hist.Keys)
    ensures Sum(s'.hist, s.clock, s'.hist.Keys) == Sum(s.hist, s.clock, s.hist.Keys)
  {
    SumSame(s.hist, s'.hist, s.clock, s.hist.Keys, s'.hist.Keys);
  }

  ghost predicate Begins(step: Step) { step.LoadFastStep? || step.LoadSlowStep? || step.IncStep? || step.DecStep? }

  /** What an access adds to the word of a live counter. */
  function Adds(step: Step): int {
    match step
    case IncStep(_, arg) => arg
    case DecStep(_, arg) => -(arg as int)
    case _ => 0
  }

  lemma StepWord(s: State, s': State, w: Lin, spec: Spec, step: Step)
    requires Inv(s, w, spec) && NextStep(s, s', step) && !Flagged(s'.x)
    ensures !Flagged(s.x) && s'.x == s.x + Adds(step)
  {
    hide Legal, PcsOk, PartsInOrder, Answered, AllPending, Quiet;
    if step.IncStep? { IncWord(s.x, step.arg); }
  }

  /** What an access does to the calls that are recorded. */
  lemma StepCalls(s: State, s': State, step: Step)
    requires Tidy(s) && NextStep(s, s', step)
    ensures if Begins(step) then
              && s.clock in s'.hist && s'.hist.Keys == s.hist.Keys + {s.clock}
              && Effect(s'.hist[s.clock].op) == Adds(step)
            else s'.hist.Keys == s.hist.Keys
    ensures forall id :: id in s.hist ==> s'.hist[id].op == s.hist[id].op
    ensures s.clock <= s'.clock <= s.clock + 2 && (Begins(step) ==> s.clock < s'.clock)
  {
  }

  lemma StepReturns(s: State, s': State, step: Step, desired: nat)
    requires Tidy(s) && NextStep(s, s', step) && Books(s, desired)
    ensures forall id :: id in s'.hist ==> id < s'.clock && (s'.hist[id].op.Inc? ==> Returned(s'.hist, id))
    ensures forall id :: Returned(s'.hist, id) ==> s'.hist[id].ret.time < s'.clock
    ensures forall id :: Returned(s.hist, id) ==> s'.hist[id] == s.hist[id]
  {
    hide Sum;
  }

  lemma SumFurther(h: History, n: nat, n': nat)
    requires n <= n' <= n + 2 && forall id :: id in h ==> id < n
    ensures Sum(h, n', h.Keys) == Sum(h, n, h.Keys)
  {
  }

  lemma BooksStep(s: State, s': State, w: Lin, spec: Spec, step: Step, desired: nat)
    requires Inv(s, w, spec) && Tidy(s) && NextStep(s, s', step) && Books(s, desired)
    ensures Books(s', desired)
  {
    hide Inv, NextStep, Sum;
    StepCalls(s, s', step);
    StepReturns(s, s', step, desired);
    if !Flagged(s'.x) {
      StepWord(s, s', w, spec, step);
      if Begins(step) {
        SumAdded(s, s');
        SumFurther(s'.hist, s.clock + 1, s'.clock);
      } else {
        SumKept(s, s');
        SumFurther(s'.hist, s.clock, s'.clock);
      }
    }
  }

  lemma {:induction false} RunBooks(run: seq<State>, desired: nat)
    requires IsRun(run, desired)
    ensures Books(run[|run| - 1], desired) && Tidy(run[|run| - 1])
  {
    hide Inv, NextStep, Books, Tidy;
    RunTidy(run, desired);
    var m := |run| - 1;
    if m == 0 {
      InitBooks(run[0], desired);
    } else {
      RunBooks(run[..m], desired);
      RunTidy(run[..m], desired);
      var w := RunInv(run[..m], Spec(desired, false), Wins(run[m - 1].hist));
      assert Next(run[m - 1], run[m]);
      var step :| NextStep(run[m - 1], run[m], step);
      BooksStep(run[m - 1], run[m], w, Spec(desired, false), step, desired);
    }
  }

  lemma InitBooks(s: State, desired: nat)
    requires Init(s, desired)
    ensures Books(s, desired)
  {
  }

  // ---------------------------------------------------------------------------------------
  // A load beside the winner
  // ---------------------------------------------------------------------------------------

  /** `h'` is `h` some time later: calls named before `n` are the same, and what had returned has its answer. */
  ghost predicate Follows(h: History, n: nat, h': History)
  {
    && (forall id :: 0 <= id < n ==> (id in h <==> id in h'))
    && (forall id :: id in h && id in h' ==> h'[id].op == h[id].op && (h[id].ret.Done? ==> h'[id] == h[id]))
  }

  lemma StepFollows(s: State, s': State, step: Step, desired: nat)
    requires Tidy(s) && Books(s, desired) && NextStep(s, s', step)
    ensures Follows(s.hist, s.clock, s'.hist) && s.clock <= s'.clock
  {
    hide NextStep, Sum;
    StepCalls(s, s', step);
    StepReturns(s, s', step, desired);
    forall id | id in s.hist && s.hist[id].ret.Done? ensures s'.hist[id] == s.hist[id] { assert Returned(s.hist, id); }
  }

  lemma {:induction false} RunFollows(run: seq<State>, desired: nat, i: nat)
    requires IsRun(run, desired) && i < |run|
    ensures Follows(run[i].hist, run[i].clock, run[|run| - 1].hist) && run[i].clock <= run[|run| - 1].clock
    decreases |run|
  {
    hide NextStep, Books, Tidy;
    var m := |run| - 1;
    if i < m {
      RunFollows(run[..m], desired, i);
      RunBooks(run[..i + 1], desired);
      NamesBelow(run[i]);
      RunBooks(run[..m], desired);
      assert Next(run[m - 1], run[m]);
      var step :| NextStep(run[m - 1], run[m], step);
      StepFollows(run[m - 1], run[m], step, desired);
      FollowsOn(run[i].hist, run[i].clock, run[m - 1].hist, run[m - 1].clock, run[m].hist);
    }
  }

  lemma NamesBelow(s: State)
    requires Tidy(s)
    ensures forall id :: id in s.hist ==> id < s.clock
  {
  }

  lemma FollowsOn(h: History, n: nat, h1: History, n1: nat, h2: History)
    requires Follows(h, n, h1) && Follows(h1, n1, h2) && n <= n1 && forall id :: id in h ==> id < n
    ensures Follows(h, n, h2)
  {
    forall id | id in h && id in h2 ensures h2[id].op == h[id].op && (h[id].ret.Done? ==> h2[id] == h[id]) { assert id in h1; }
  }

  ghost function Ids(l: seq<Entry>): set<OpId> { set e | e in l :: e.id }

  /** As long as the sequential counter is not at zero, it has what its operations have added. */
  lemma {:induction false} CountIsSum(spec: Spec, h: History, l: seq<Entry>, n: nat)
    requires Legal(spec, h, l) && InOrder(h, l) && Count(spec, h, l) > 0 && forall e :: e in l ==> e.id < n
    ensures Count(spec, h, l) == spec.start + Sum(h, n, Ids(l))
  {
    if l == [] {
      assert Ids(l) == {};
      SumNone(h, n);
    } else {
      var m, e := l[..|l| - 1], l[|l| - 1];
      assert l == m + [e];
      assert l[..|l|] == l;
      if Count(spec, h, m) == 0 { ZeroStays(spec, h, l, |l| - 1, |l|); }
      CountIsSum(spec, h, m, n);
      assert Ids(l) == Ids(m) + {e.id};
      forall f | f in m ensures f.id != e.id { var i :| 0 <= i < |m| && m[i] == f; assert l[i] == f; }
      SumAdd(h, n, Ids(m), e.id);
    }
  }

  lemma {:induction false} SumNone(h: History, n: nat)
    ensures Sum(h, n, {}) == 0
  {
    if n > 0 { SumNone(h, n - 1); }
  }

  lemma {:induction false} LegalPart(spec: Spec, h: History, l: seq<Entry>, i: nat)
    requires Legal(spec, h, l) && InOrder(h, l) && i <= |l|
    ensures Legal(spec, h, l[..i]) && InOrder(h, l[..i])
  {
    if i < |l| { LegalPrefix(spec, h, l, i); } else { assert l[..i] == l; }
  }

  /** A decrement that had reached zero when the load read stands before it: without it, more would be left than was read. */
  lemma PendingEarlier(s: State, h: History, desired: nat, l: seq<Entry>, p: nat, d: OpId)
    requires Books(s, desired) && !Flagged(s.x) && Follows(s.hist, s.clock, h)
    requires Linearizes(Spec(desired, true), h, l) && p < |l| && l[p] == Entry(s.clock, Value(s.x)) && s.x > 0
    requires Returned(h, s.clock) && h[s.clock].op == Load && h[s.clock].ret.time == s.clock + 1 && s.clock + 1 !in h
    requires d in s.hist && s.hist[d].op.Dec? && s.hist[d].op.arg > 0
    ensures d in Ids(l[..p])
  {
    hide Sum;
    var spec, n := Spec(desired, true), s.clock;
    LegalPrefix(spec, h, l, p);
    LegalPart(spec, h, l, p);
    var m := l[..p];
    BeforeLoad(s, h, desired, l, p);
    CountIsSum(spec, h, m, n);
    SumSame(s.hist, h, n, s.hist.Keys, s.hist.Keys);
    forall k | k in s.hist && k in h && h[k].op.Inc? ensures k in Ids(m) {
      assert Returned(s.hist, k);
      var j := EntryOf(spec, h, l, k);
      assert RetBefore(h, k, n);
      assert l[j] in m;
    }
    if d !in Ids(m) { SumLess(h, n, s.hist.Keys, Ids(m), d); }
  }

  /** What is placed before the load was called before it. */
  lemma BeforeLoad(s: State, h: History, desired: nat, l: seq<Entry>, p: nat)
    requires Books(s, desired) && Follows(s.hist, s.clock, h)
    requires Linearizes(Spec(desired, true), h, l) && p < |l| && l[p].id == s.clock
    requires Returned(h, s.clock) && h[s.clock].ret.time == s.clock + 1 && s.clock + 1 !in h
    ensures forall e :: e in l[..p] ==> e.id < s.clock && e.id in s.hist
  {
    LegalIds(Spec(desired, true), h, l);
    forall e | e in l[..p] ensures e.id < s.clock && e.id in s.hist {
      var j :| 0 <= j < p && l[j] == e;
      assert l[j] in l;
      assert e.id != s.clock && !RetBefore(h, s.clock, e.id);
    }
  }

  /** If the winner is placed before the load, the load would read 0. */
  lemma WinnerEarlier(h: History, desired: nat, l: seq<Entry>, p: nat, q: nat)
    requires Linearizes(Spec(desired, true), h, l) && q < p < |l| && Won(h, l[q].id) && l[q].res == Bool(true)
    requires l[p].id in h && h[l[p].id].op == Load
    ensures l[p].res == Value(0)
  {
    var spec := Spec(desired, true);
    SaysZeroIsZero(spec, h, l, q);
    ZeroStays(spec, h, l, q + 1, p);
    LegalPrefix(spec, h, l, p);
  }

  /** A load that reads a nonzero count at once, beside the decrement that wins, cannot be explained as exact. */
  lemma BesideWinner(run: seq<State>, desired: nat, i: nat, t: Tid, u: Tid)
    requires IsRun(run, desired) && i < |run| - 1 && NextStep(run[i], run[i + 1], LoadFastStep(t))
    requires !Flagged(run[i].x) && u in run[i].pc && run[i].pc[u].DecCas? && Won(run[|run| - 1].hist, run[i].pc[u].id)
    ensures !Exact(run[|run| - 1].hist, desired)
  {
    hide Books, Linearizes, Follows, Won, Returned, Init, Next;
    var s, h := run[i], run[|run| - 1].hist;
    var d := s.pc[u].id;
    if l :| Linearizes(Spec(desired, true), h, l) {
      RunBooks(run[..i + 1], desired);
      RunFollows(run, desired, i);
      RunFollows(run, desired, i + 1);
      LoadRecorded(s, run[i + 1], h, desired, t);
      RunArgs(run, desired);
      WonIs(s, h, d, u);
      var p := EntryOf(Spec(desired, true), h, l, s.clock);
      var q := EntryOf(Spec(desired, true), h, l, d);
      if q < p {
        WinnerEarlier(h, desired, l, p, q);
      } else {
        OnlyAt(h, desired, l, p, q);
        PendingEarlier(s, h, desired, l, p, d);
      }
    }
  }

  lemma WonIs(s: State, h: History, d: OpId, u: Tid)
    requires Won(h, d) && PositiveArgs(h) && Tidy(s) && Follows(s.hist, s.clock, h) && u in s.pc && s.pc[u].id == d
    ensures Returned(h, d) && h[d].ret.res == Bool(true) && d in s.hist && s.hist[d].op.Dec? && s.hist[d].op.arg > 0
  {
  }

  lemma OnlyAt(h: History, desired: nat, l: seq<Entry>, p: nat, q: nat)
    requires Linearizes(Spec(desired, true), h, l) && p <= q < |l|
    ensures forall j :: 0 <= j < p ==> l[j].id != l[q].id
  {
  }

  lemma LoadRecorded(s: State, s': State, h: History, desired: nat, t: Tid)
    requires Tidy(s) && LoadFast(s, s', t) && !Flagged(s.x) && Follows(s'.hist, s'.clock, h)
    ensures Returned(h, s.clock) && h[s.clock].op == Load && h[s.clock].ret == Done(s.clock + 1, Value(s.x))
    ensures s.clock + 1 !in h && s.x > 0
  {
  }

  /** No load comes back for a second access and then finds a count other than zero. */
  ghost predicate LoadsAtOnce(run: seq<State>)
  {
    forall i, step :: 0 <= i < |run| - 1 && NextStep(run[i], run[i + 1], step) && step.LoadFinishStep? ==> !NonzeroLoad(run[i], step)
  }

  /** A run whose nonzero loads read at once is exact if and only if none of them reads beside the decrement that wins. */
  lemma ExactIff(run: seq<State>, desired: nat)
    requires IsRun(run, desired) && LoadsAtOnce(run)
    ensures Exact(run[|run| - 1].hist, desired) <==> !MissesWinner(run)
  {
    hide Init, NextStep, Linearizes, Wins;
    var h := run[|run| - 1].hist;
    if MissesWinner(run) {
      var i :| 0 <= i < |run| - 1 && !HarmlessNext(run[i], run[i + 1], Wins(h));
      assert Next(run[i], run[i + 1]);
      var step :| NextStep(run[i], run[i + 1], step);
      assert !Harmless(run[i], step, Wins(h));
      var u :| u in run[i].pc && run[i].pc[u].DecCas? && run[i].pc[u].id in Wins(h);
      WinsAre(h, run[i].pc[u].id);
      BesideWinner(run, desired, i, step.t, u);
    } else {
      ExactUnlessMissed(run, desired);
    }
  }

  lemma WinsAre(h: History, id: OpId)
    ensures id in Wins(h) <==> Won(h, id)
  {
  }

  /** No decrement at all is between its accesses when a load reads a nonzero count. */
  ghost predicate Calm(s: State, step: Step)
  {
    NonzeroLoad(s, step) ==> forall t :: t in s.pc ==> !s.pc[t].DecCas?
  }

  ghost predicate CalmNext(s: State, s': State) { exists step :: NextStep(s, s', step) && Calm(s, step) }

  /** Calm runs are exact, loads with two accesses among them. */
  lemma ExactWhenCalm(run: seq<State>, desired: nat)
    requires IsRun(run, desired) && forall i :: 0 <= i < |run| - 1 ==> CalmNext(run[i], run[i + 1])
    ensures Exact(run[|run| - 1].hist, desired)
  {
    hide Init, Next, NextStep, Wins;
    var wins := Wins(run[|run| - 1].hist);
    forall i | 0 <= i < |run| - 1 ensures HarmlessNext(run[i], run[i + 1], wins) {
      assert CalmNext(run[i], run[i + 1]);
      var step :| NextStep(run[i], run[i + 1], step) && Calm(run[i], step);
      assert Harmless(run[i], step, wins);
    }
    ExactUnlessMissed(run, desired);
  }

  // ---------------------------------------------------------------------------------------
  // When a caller can trust the next load
  // ---------------------------------------------------------------------------------------

  ghost function Stalled(s: State): set<OpId> { set t | t in s.pc && s.pc[t].DecCas? :: s.pc[t].id }

  /** The accesses of the run but the one at `j` miss none of the decrements. */
  ghost predicate OthersHarmless(run: seq<State>, j: nat, ids: set<OpId>)
  {
    forall i :: 0 <= i < |run| - 1 && i != j ==> HarmlessNext(run[i], run[i + 1], ids)
  }

  /** The run goes on with a load; of its accesses only that load may read beside the decrement that wins. */
  ghost predicate GoesOn(run: seq<State>, ext: seq<State>, desired: nat, t: Tid)
    requires |run| > 0
  {
    && ext != [] && IsRun(run + ext, desired) && LoadFast(run[|run| - 1], ext[0], t)
    && OthersHarmless(run + ext, |run| - 1, Wins((run + ext)[|run + ext| - 1].hist))
  }

  /** An earlier load has read a nonzero count while the decrement was between its accesses. */
  ghost predicate Met(run: seq<State>, d: OpId)
    requires |run| > 0
  {
    !OthersHarmless(run, |run| - 1, {d})
  }

  /** A load made now is exact whatever comes after it. */
  ghost predicate SafeToLoad(run: seq<State>, desired: nat)
    requires |run| > 0
  {
    forall ext, t :: GoesOn(run, ext, desired, t) ==> Exact((run + ext)[|run + ext| - 1].hist, desired)
  }

  lemma {:induction false} FreshIn(ids: set<Tid>) returns (u: Tid)
    ensures forall t :: t in ids ==> t < u
    decreases |ids|
  {
    if ids == {} {
      u := 0;
    } else {
      var t :| t in ids;
      var v := FreshIn(ids - {t});
      u := if t < v then v else t + 1;
      assert forall k :: k in ids ==> k == t || k in ids - {t};
    }
  }

  /** A load, a decrement that gives back all that is left, and then the stalled decrement wins. */
  ghost function Overtaken(s: State, u: Tid, t: Tid, i: nat): State
    requires At(s, t) && s.pc[t].id < s.clock
  {
    var s1 := Whole(s, Load, Value(s.x));
    if i == 0 then s1
    else
      var s2 := Start(s1, u, Dec(s.x), DecCas(s1.clock, s.x)).(x := 0, owned := 0);
      if i == 1 then s2 else if t in s2.pc && s2.pc[t].id in s2.hist then Finish(s2, t, Bool(true)).(x := ZERO_FLAG) else s2
  }

  lemma OvertakenSteps(s: State, u: Tid, t: Tid)
    requires Tidy(s) && At(s, t) && s.pc[t].DecCas? && u !in s.pc && 0 < s.x < WORD && !Flagged(s.x) && s.owned == s.x
    ensures s.pc[t].id < s.clock
    ensures NextStep(s, Overtaken(s, u, t, 0), LoadFastStep(u))
    ensures NextStep(Overtaken(s, u, t, 0), Overtaken(s, u, t, 1), DecStep(u, s.x))
    ensures NextStep(Overtaken(s, u, t, 1), Overtaken(s, u, t, 2), DecCasStep(t))
    ensures Wins(Overtaken(s, u, t, 2).hist) == Wins(s.hist) + if s.hist[s.pc[t].id].op.Dec? then {s.pc[t].id} else {}
  {
    OvertakenWins(s, u, t);
  }

  lemma OvertakenWins(s: State, u: Tid, t: Tid)
    requires Tidy(s) && At(s, t) && s.pc[t].DecCas? && u !in s.pc
    ensures Wins(Overtaken(s, u, t, 2).hist) == Wins(s.hist) + if s.hist[s.pc[t].id].op.Dec? then {s.pc[t].id} else {}
  {
    var h, h', d := s.hist, Overtaken(s, u, t, 2).hist, s.pc[t].id;
    forall id ensures id in Wins(h') <==> id in Wins(h) || (id == d && h[d].op.Dec?) { }
  }

  /** In a live counter the word is what the clients hold, and nobody has won. */
  lemma LiveFacts(run: seq<State>, desired: nat)
    requires IsRun(run, desired) && !Flagged(run[|run| - 1].x)
    ensures var s := run[|run| - 1];
      && Tidy(s) && s.owned == s.x < WORD && Wins(s.hist) == {}
      && forall t :: t in s.pc && s.pc[t].DecCas? ==> At(s, t) && s.hist[s.pc[t].id].op.Dec?
  {
    var s, spec := run[|run| - 1], Spec(desired, false);
    RunTidy(run, desired);
    var w := RunInv(run, spec, Wins(s.hist));
    InvLinearizes(s, w, spec);
    if id :| id in Wins(s.hist) {
      var i := EntryOf(spec, s.hist, w.a, id);
      SaysZeroIsZero(spec, s.hist, w.a, i);
      assert w.a[..|w.a|] == w.a;
      ZeroStays(spec, s.hist, w.a, i + 1, |w.a|);
      LiveCountPositive(s, w, spec);
    }
  }

  lemma {:induction false} Joined(run: seq<State>, ext: seq<State>, desired: nat, ids: set<OpId>)
    requires IsRun(run, desired) && ext != [] && Next(run[|run| - 1], ext[0])
    requires forall i :: 0 <= i < |ext| - 1 ==> Next(ext[i], ext[i + 1]) && HarmlessNext(ext[i], ext[i + 1], ids)
    requires OthersHarmless(run, |run| - 1, ids)
    ensures IsRun(run + ext, desired) && OthersHarmless(run + ext, |run| - 1, ids)
  {
    hide Next, HarmlessNext, Init;
    var r, m := run + ext, |run|;
    forall i | 0 <= i < |r| - 1 ensures Next(r[i], r[i + 1]) && (i != m - 1 ==> HarmlessNext(r[i], r[i + 1], ids)) {
      if i < m - 1 { assert r[i] == run[i] && r[i + 1] == run[i + 1]; }
      else if i == m - 1 { assert r[i] == run[i] && r[i + 1] == ext[0]; }
      else { assert r[i] == ext[i - m] && r[i + 1] == ext[i - m + 1]; }
    }
    assert r[0] == run[0];
  }

  lemma FewerHarmless(run: seq<State>, j: nat, ids: set<OpId>, ids': set<OpId>)
    requires OthersHarmless(run, j, ids) && ids' <= ids
    ensures OthersHarmless(run, j, ids')
  {
    forall i | 0 <= i < |run| - 1 && i != j ensures HarmlessNext(run[i], run[i + 1], ids') {
      assert HarmlessNext(run[i], run[i + 1], ids);
      var step :| NextStep(run[i], run[i + 1], step) && Harmless(run[i], step, ids);
      assert Harmless(run[i], step, ids');
    }
  }

  /** From every live state with a stalled decrement, the run can go on so that a load made now is not exact. */
  lemma StalledCanWin(run: seq<State>, desired: nat, t: Tid) returns (ext: seq<State>, u: Tid)
    requires IsRun(run, desired)
    requires var s := run[|run| - 1]; !Flagged(s.x) && s.x > 0 && t in s.pc && s.pc[t].DecCas?
    ensures |ext| == 3 && IsRun(run + ext, desired) && LoadFast(run[|run| - 1], ext[0], u)
    ensures !Exact((run + ext)[|run + ext| - 1].hist, desired)
    ensures !Met(run, run[|run| - 1].pc[t].id) ==> GoesOn(run, ext, desired, u)
  {
    hide Init, Next, Overtaken, Exact, HarmlessNext, Won, Tidy, OthersHarmless;
    var s := run[|run| - 1];
    LiveFacts(run, desired);
    u := FreshIn(s.pc.Keys);
    OvertakenSteps(s, u, t);
    ext := [Overtaken(s, u, t, 0), Overtaken(s, u, t, 1), Overtaken(s, u, t, 2)];
    var d := s.pc[t].id;
    OvertakenNext(s, u, t, {d});
    OvertakenJoined(run, ext, desired, {d});
    var r := run + ext;
    assert r[|run| - 1] == s && r[|run|] == ext[0] && r[|r| - 1] == ext[2];
    assert Wins(ext[2].hist) == {d};
    WinsAre(ext[2].hist, d);
    BesideWinner(r, desired, |run| - 1, u, t);
  }

  lemma OvertakenNext(s: State, u: Tid, t: Tid, ids: set<OpId>)
    requires Tidy(s) && At(s, t) && s.pc[t].DecCas? && u !in s.pc && 0 < s.x < WORD && !Flagged(s.x) && s.owned == s.x
    ensures s.pc[t].id < s.clock
    ensures var s1, s2, s3 := Overtaken(s, u, t, 0), Overtaken(s, u, t, 1), Overtaken(s, u, t, 2);
      Next(s, s1) && Next(s1, s2) && Next(s2, s3) && HarmlessNext(s1, s2, ids) && HarmlessNext(s2, s3, ids)
  {
    hide NextStep, Overtaken, Tidy;
    OvertakenSteps(s, u, t);
    var s1, s2, s3 := Overtaken(s, u, t, 0), Overtaken(s, u, t, 1), Overtaken(s, u, t, 2);
    assert NextStep(s, s1, LoadFastStep(u));
    assert NextStep(s1, s2, DecStep(u, s.x)) && Harmless(s1, DecStep(u, s.x), ids);
    assert NextStep(s2, s3, DecCasStep(t)) && Harmless(s2, DecCasStep(t), ids);
  }

  lemma OvertakenJoined(run: seq<State>, ext: seq<State>, desired: nat, ids: set<OpId>)
    requires IsRun(run, desired) && |ext| == 3 && Next(run[|run| - 1], ext[0])
    requires Next(ext[0], ext[1]) && Next(ext[1], ext[2]) && HarmlessNext(ext[0], ext[1], ids) && HarmlessNext(ext[1], ext[2], ids)
    ensures IsRun(run + ext, desired)
    ensures OthersHarmless(run, |run| - 1, ids) ==> OthersHarmless(run + ext, |run| - 1, ids)
  {
    hide Next, HarmlessNext, Init;
    if OthersHarmless(run, |run| - 1, ids) {
      Joined(run, ext, desired, ids);
    } else {
      var r, m := run + ext, |run|;
      forall i | 0 <= i < |r| - 1 ensures Next(r[i], r[i + 1]) {
        if i < m - 1 { assert r[i] == run[i] && r[i + 1] == run[i + 1]; }
      }
      assert r[0] == run[0];
    }
  }

  /**
   At a live count, a load made now is exact whatever comes after it, if and only if every decrement that is between its
   two accesses has been met by an earlier load: if there is none, or only such as have done the harm already.
   */
  lemma SafeIff(run: seq<State>, desired: nat)
    requires IsRun(run, desired) && !Flagged(run[|run| - 1].x) && run[|run| - 1].x > 0
    ensures SafeToLoad(run, desired) <==> forall d :: d in Stalled(run[|run| - 1]) ==> Met(run, d)
  {
    hide Init, Next, Exact, HarmlessNext, OthersHarmless, Wins, GoesOn;
    var s := run[|run| - 1];
    if d :| d in Stalled(s) && !Met(run, d) {
      var t :| t in s.pc && s.pc[t].DecCas? && s.pc[t].id == d;
      var ext, u := StalledCanWin(run, desired, t);
    } else {
      forall ext, t | GoesOn(run, ext, desired, t) ensures Exact((run + ext)[|run + ext| - 1].hist, desired) {
        NoneStalled(run, ext, desired, t);
      }
    }
  }

  /** With no stalled decrement at all a load is safe. */
  lemma SafeWhenNoneStalled(run: seq<State>, desired: nat)
    requires IsRun(run, desired) && !Flagged(run[|run| - 1].x) && run[|run| - 1].x > 0 && Stalled(run[|run| - 1]) == {}
    ensures SafeToLoad(run, desired)
  {
    SafeIff(run, desired);
  }

  lemma StalledHas(s: State)
    ensures forall t :: t in s.pc && s.pc[t].DecCas? ==> s.pc[t].id in Stalled(s)
  {
  }

  /** What wins after a harmless continuation had not been met before. */
  lemma WinnerNotMet(run: seq<State>, ext: seq<State>, ids: set<OpId>, d: OpId)
    requires |run| > 0 && OthersHarmless(run + ext, |run| - 1, ids) && d in ids
    ensures !Met(run, d)
  {
    hide HarmlessNext;
    var r := run + ext;
    FewerHarmless(r, |run| - 1, ids, {d});
    forall i | 0 <= i < |run| - 1 ensures HarmlessNext(run[i], run[i + 1], {d}) {
      assert r[i] == run[i] && r[i + 1] == run[i + 1] && HarmlessNext(r[i], r[i + 1], {d});
    }
  }

  lemma NoneStalled(run: seq<State>, ext: seq<State>, desired: nat, t: Tid)
    requires |run| > 0 && GoesOn(run, ext, desired, t) && forall d :: d in Stalled(run[|run| - 1]) ==> Met(run, d)
    ensures Exact((run + ext)[|run + ext| - 1].hist, desired)
  {
    hide Init, Next, LoadFast, Wins, Met;
    var r, m := run + ext, |run|;
    var wins := Wins(r[|r| - 1].hist);
    forall d | d in wins ensures d !in Stalled(run[m - 1]) { WinnerNotMet(run, ext, wins, d); }
    StalledHas(run[m - 1]);
    assert r[m - 1] == run[m - 1] && r[m] == ext[0];
    assert NextStep(r[m - 1], r[m], LoadFastStep(t)) && Harmless(r[m - 1], LoadFastStep(t), wins);
    assert HarmlessNext(r[m - 1], r[m], wins);
    ExactUnlessMissed(r, desired);
  }

  // ---------------------------------------------------------------------------------------
  // A load that comes back for a second access can be lucky
  // ---------------------------------------------------------------------------------------

  const LUCKY: History :=
    map[0 := Call(Dec(1), Done(6, Bool(true))),
        1 := Call(Load, Done(4, Value(1))),
        2 := Call(Inc(1), Done(3, Bool(true))),
        5 := Call(Dec(1), Open)]

  /**
   Thread 0 drops the only unit and stalls; thread 1 loads 0 and stalls; thread 2 increments; thread 1 finds 1 and answers
   1; thread 2 drops its unit, and thread 0 wins. The load can be placed before the increment, when the count was 1 too.
   */
  ghost function Lucky(i: nat): State
    requires i < 7
  {
    var h2 := map[0 := Call(Dec(1), Open), 1 := Call(Load, Open)];
    var h3 := h2[2 := Call(Inc(1), Done(3, Bool(true)))];
    var h4 := h3[1 := Call(Load, Done(4, Value(1)))];
    var h5 := h4[5 := Call(Dec(1), Open)];
    if i == 0 then State(1, 1, map[], 0, map[])
    else if i == 1 then State(0, 0, map[0 := DecCas(0, 1)], 1, map[0 := Call(Dec(1), Open)])
    else if i == 2 then State(0, 0, map[0 := DecCas(0, 1), 1 := LoadCas(1)], 2, h2)
    else if i == 3 then State(1, 1, map[0 := DecCas(0, 1), 1 := LoadCas(1)], 4, h3)
    else if i == 4 then State(1, 1, map[0 := DecCas(0, 1)], 5, h4)
    else if i == 5 then State(0, 0, map[0 := DecCas(0, 1), 2 := DecCas(5, 1)], 6, h5)
    else State(ZERO_FLAG, 0, map[2 := DecCas(5, 1)], 7, LUCKY)
  }

  lemma LuckyStart(i: nat)
    requires i < 3
    ensures Next(Lucky(i), Lucky(i + 1))
  {
    var s, s' := Lucky(i), Lucky(i + 1);
    if i == 0 { assert NextStep(s, s', DecStep(0, 1)); }
    if i == 1 { assert NextStep(s, s', LoadSlowStep(1)); }
    if i == 2 { assert NextStep(s, s', IncStep(2, 1)); }
  }

  lemma LuckyEnd(i: nat)
    requires 3 <= i < 6
    ensures Next(Lucky(i), Lucky(i + 1))
  {
    var s, s' := Lucky(i), Lucky(i + 1);
    if i == 3 {
      assert s.pc - {1} == s'.pc && s'.hist == s.hist[1 := s.hist[1].(ret := Done(4, Value(1)))];
      assert NextStep(s, s', LoadFinishStep(1));
    }
    if i == 4 { assert NextStep(s, s', DecStep(2, 1)); }
    if i == 5 {
      assert s.pc - {0} == s'.pc && LUCKY == s.hist[0 := s.hist[0].(ret := Done(6, Bool(true)))];
      assert NextStep(s, s', DecCasStep(0));
    }
  }

  lemma LuckyExact()
    ensures Exact(LUCKY, 1)
  {
    var spec := Spec(1, true);
    var e1, e2, e3, e4 := Entry(1, Value(1)), Entry(2, Bool(true)), Entry(5, Bool(false)), Entry(0, Bool(true));
    LegalSnoc(spec, LUCKY, [], e1);
    LegalSnoc(spec, LUCKY, [] + [e1], e2);
    LegalSnoc(spec, LUCKY, [] + [e1] + [e2], e3);
    LegalSnoc(spec, LUCKY, [] + [e1] + [e2] + [e3], e4);
    var l := [] + [e1] + [e2] + [e3] + [e4];
    assert l[0] == e1 && l[1] == e2 && l[2] == e3 && l[3] == e4;
    assert Linearizes(spec, LUCKY, l);
  }

  /** A load with two accesses can show 1 beside the decrement that wins and still be exact. */
  lemma SlowCanBeLucky() returns (run: seq<State>)
    ensures IsRun(run, 1) && MissesWinner(run) && !LoadsAtOnce(run) && Exact(run[|run| - 1].hist, 1)
  {
    hide Next, NextStep, Exact;
    run := seq(7, i requires 0 <= i < 7 => Lucky(i));
    forall i | 0 <= i < 6 ensures Next(run[i], run[i + 1]) { if i < 3 { LuckyStart(i); } else { LuckyEnd(i); } }
    LuckyExact();
    LuckyMisses();
    assert run[3] == Lucky(3) && run[4] == Lucky(4);
    assert NextStep(run[3], run[4], LoadFinishStep(1)) && NonzeroLoad(run[3], LoadFinishStep(1));
  }

  lemma LuckyMisses()
    ensures !HarmlessNext(Lucky(3), Lucky(4), Wins(LUCKY)) && NextStep(Lucky(3), Lucky(4), LoadFinishStep(1))
  {
    assert 0 in Wins(LUCKY);
    var s, s' := Lucky(3), Lucky(4);
    assert s.pc - {1} == s'.pc && s'.hist == s.hist[1 := s.hist[1].(ret := Done(4, Value(1)))];
    forall step | NextStep(s, s', step) ensures NonzeroLoad(s, step) { }
    assert s.pc[0].DecCas? && s.pc[0].id == 0;
  }
}
