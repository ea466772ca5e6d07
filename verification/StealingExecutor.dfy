/**
 `WaitAll` of the work-stealing executor: consumers steal tasks, count themselves as working and as waiting, and the
 submitter waits on the counts. Every access to the queue or to a counter is a step of its own; the queue is atomic.
 */
module StealingExecutor {

  type Task = nat

  datatype Consumer =
    | Top                    // about to count itself as waiting
    | Waiting                // counted, looking for work
    | Leaving                // has seen work, about to stop counting itself
    | Stealing               // about to steal a first task
    | Holding(x: Task)       // has stolen, about to count itself as working
    | Working(x: Task)       // counted, consuming
    | Again                  // about to steal another task or stop
    | Stopping               // about to stop counting itself as working
    | Finished               // about to see whether it is the last one

  datatype Submitter =
    | Submitting
    | CheckQueue             // WaitAll: about to ask whether the queue is empty
    | CheckWorking           // the queue was empty: about to read the working count
    | CheckWaiting           // nobody counted as working: about to read the waiting count
    | Returned

  datatype Place = Queued | Held(c: nat) | Done

  /** `place` and `finished` record where each task is and which have been consumed or cleaned up, in order. */
  datatype State = State(
    queue: seq<Task>, working: int, waiting: int, main: Submitter, consumers: seq<Consumer>,
    place: map<Task, Place>, finished: seq<Task>)

  ghost predicate Init(s: State) {
    && s.queue == [] && s.working == 0 && s.waiting == 0 && s.main == Submitting && s.place == map[] && s.finished == []
    && forall c :: 0 <= c < |s.consumers| ==> s.consumers[c] == Top
  }

  // --- the submitter ---

  ghost predicate Submit(s: State, s': State, x: Task) {
    && s.main == Submitting && x !in s.place
    && s' == s.(queue := s.queue + [x], place := s.place[x := Queued])
  }

  ghost predicate BeginWaitAll(s: State, s': State) { s.main == Submitting && s' == s.(main := CheckQueue) }

  /** The condition of the first loop, read left to right; if it holds the submitter sleeps and asks again. */
  ghost predicate AskQueue(s: State, s': State) {
    s.main == CheckQueue && s' == s.(main := if s.queue != [] then CheckQueue else CheckWorking)
  }

  ghost predicate AskWorking(s: State, s': State) {
    s.main == CheckWorking && s' == s.(main := if s.working != 0 then CheckQueue else CheckWaiting)
  }

  /** The second loop. */
  ghost predicate AskWaiting(s: State, s': State) {
    s.main == CheckWaiting && s' == s.(main := if s.waiting != |s.consumers| then CheckWaiting else Returned)
  }

  ghost predicate Resume(s: State, s': State) { s.main == Returned && s' == s.(main := Submitting) }

  // --- the consumers ---

  ghost predicate Enter(s: State, s': State, c: nat) {
    && c < |s.consumers| && s.consumers[c] == Top
    && s' == s.(waiting := s.waiting + 1, consumers := s.consumers[c := Waiting])
  }

  /** Waking up for nothing is looking again. */
  ghost predicate Look(s: State, s': State, c: nat) {
    && c < |s.consumers| && s.consumers[c] == Waiting
    && s' == s.(consumers := s.consumers[c := if s.queue != [] then Leaving else Waiting])
  }

  ghost predicate Leave(s: State, s': State, c: nat) {
    && c < |s.consumers| && s.consumers[c] == Leaving
    && s' == s.(waiting := s.waiting - 1, consumers := s.consumers[c := Stealing])
  }

  /** A steal takes the oldest task, or loses a race or finds nothing. */
  ghost predicate Steal(s: State, s': State, c: nat, lucky: bool) {
    && c < |s.consumers| && (s.consumers[c] == Stealing || s.consumers[c] == Again)
    && s' == if lucky && s.queue != []
             then s.(queue := s.queue[1..], place := s.place[s.queue[0] := Held(c)],
                     consumers := s.consumers[c := if s.consumers[c] == Stealing then Holding(s.queue[0]) else Working(s.queue[0])])
             else s.(consumers := s.consumers[c := if s.consumers[c] == Stealing then Finished else Stopping])
  }

  ghost predicate CountIn(s: State, s': State, c: nat) {
    && c < |s.consumers| && s.consumers[c].Holding?
    && s' == s.(working := s.working + 1, consumers := s.consumers[c := Working(s.consumers[c].x)])
  }

  /** `Callback_Consume` or `Callback_Cleanup`; then another round, or out of the loop. */
  ghost predicate Consume(s: State, s': State, c: nat, more: bool) {
    && c < |s.consumers| && s.consumers[c].Working?
    && s' == s.(finished := s.finished + [s.consumers[c].x], place := s.place[s.consumers[c].x := Done],
                consumers := s.consumers[c := if more then Again else Stopping])
  }

  ghost predicate CountOut(s: State, s': State, c: nat) {
    && c < |s.consumers| && s.consumers[c] == Stopping
    && s' == s.(working := s.working - 1, consumers := s.consumers[c := Finished])
  }

  /** The last one wakes the submitter; all go back to the top. */
  ghost predicate GoBack(s: State, s': State, c: nat) {
    && c < |s.consumers| && s.consumers[c] == Finished && s' == s.(consumers := s.consumers[c := Top])
  }

  datatype Action =
    | DoSubmit(x: Task) | DoBeginWaitAll | DoAskQueue | DoAskWorking | DoAskWaiting | DoResume
    | DoEnter(c: nat) | DoLook(c: nat) | DoLeave(c: nat) | DoSteal(c: nat, lucky: bool)
    | DoCountIn(c: nat) | DoConsume(c: nat, more: bool) | DoCountOut(c: nat) | DoGoBack(c: nat)

  ghost predicate NextStep(s: State, s': State, a: Action) {
    match a
    case DoSubmit(x) => Submit(s, s', x)
    case DoBeginWaitAll => BeginWaitAll(s, s')
    case DoAskQueue => AskQueue(s, s')
    case DoAskWorking => AskWorking(s, s')
    case DoAskWaiting => AskWaiting(s, s')
    case DoResume => Resume(s, s')
    case DoEnter(c) => Enter(s, s', c)
    case DoLook(c) => Look(s, s', c)
    case DoLeave(c) => Leave(s, s', c)
    case DoSteal(c, lucky) => Steal(s, s', c, lucky)
    case DoCountIn(c) => CountIn(s, s', c)
    case DoConsume(c, more) => Consume(s, s', c, more)
    case DoCountOut(c) => CountOut(s, s', c)
    case DoGoBack(c) => GoBack(s, s', c)
  }

  ghost predicate Next(s: State, s': State) { exists a :: NextStep(s, s', a) }

  ghost predicate IsRun(run: seq<State>) {
    && |run| > 0 && Init(run[0])
    && forall i :: 0 <= i < |run| - 1 ==> Next(run[i], run[i + 1])
  }

  // ---------------------------------------------------------------------------------------
  // Invariant
  // ---------------------------------------------------------------------------------------

  predicate CountsAsWaiting(p: Consumer) { p.Waiting? || p.Leaving? }

  predicate CountsAsWorking(p: Consumer) { p.Working? || p.Again? || p.Stopping? }

  predicate Holds(p: Consumer) { p.Holding? || p.Working? }

  ghost function WaitingIn(cs: seq<Consumer>): nat {
    if cs == [] then 0 else WaitingIn(cs[..|cs| - 1]) + if CountsAsWaiting(cs[|cs| - 1]) then 1 else 0
  }

  ghost function WorkingIn(cs: seq<Consumer>): nat {
    if cs == [] then 0 else WorkingIn(cs[..|cs| - 1]) + if CountsAsWorking(cs[|cs| - 1]) then 1 else 0
  }

  lemma {:induction false} CountsUpdate(cs: seq<Consumer>, c: nat, p: Consumer)
    requires c < |cs|
    ensures WaitingIn(cs[c := p]) == WaitingIn(cs) + (if CountsAsWaiting(p) then 1 else 0) - if CountsAsWaiting(cs[c]) then 1 else 0
    ensures WorkingIn(cs[c := p]) == WorkingIn(cs) + (if CountsAsWorking(p) then 1 else 0) - if CountsAsWorking(cs[c]) then 1 else 0
  {
    var n := |cs| - 1;
    if c < n {
      CountsUpdate(cs[..n], c, p);
      assert cs[c := p][..n] == cs[..n][c := p];
    } else {
      assert cs[c := p][..n] == cs[..n];
    }
  }

  /** If the count says that all wait, all do. */
  lemma {:induction false} AllWait(cs: seq<Consumer>)
    ensures WaitingIn(cs) <= |cs|
    ensures WaitingIn(cs) == |cs| ==> forall c :: 0 <= c < |cs| ==> CountsAsWaiting(cs[c])
  {
    if cs != [] { AllWait(cs[..|cs| - 1]); }
  }

  ghost predicate Counted(s: State) { s.waiting == WaitingIn(s.consumers) && s.working == WorkingIn(s.consumers) }

  /** Each task is in the queue once, or with the one consumer recorded for it, or finished once. */
  ghost predicate Placed(s: State) {
    && (forall i :: 0 <= i < |s.queue| ==> s.queue[i] in s.place && s.place[s.queue[i]] == Queued)
    && (forall i, j :: 0 <= i < j < |s.queue| ==> s.queue[i] != s.queue[j])
    && (forall c :: 0 <= c < |s.consumers| && Holds(s.consumers[c]) ==>
          s.consumers[c].x in s.place && s.place[s.consumers[c].x] == Held(c))
    && (forall k :: 0 <= k < |s.finished| ==> s.finished[k] in s.place && s.place[s.finished[k]] == Done)
    && (forall j, k :: 0 <= j < k < |s.finished| ==> s.finished[j] != s.finished[k])
    && (forall x :: x in s.place ==> PlaceOk(s, x))
  }

  ghost predicate PlaceOk(s: State, x: Task)
    requires x in s.place
  {
    match s.place[x]
    case Queued => x in s.queue
    case Held(c) => c < |s.consumers| && Holds(s.consumers[c]) && s.consumers[c].x == x
    case Done => x in s.finished
  }

  /** Once the queue was seen empty it stays so; when all were seen waiting, nobody holds anything. */
  ghost predicate Barred(s: State) {
    && (s.main == CheckWorking || s.main == CheckWaiting || s.main == Returned ==> s.queue == [])
    && (s.main == Returned ==> forall c :: 0 <= c < |s.consumers| ==> !Holds(s.consumers[c]))
  }

  ghost predicate Inv(s: State) { Counted(s) && Placed(s) && Barred(s) }

  lemma StepCounts(s: State, s': State, a: Action)
    requires Counted(s) && NextStep(s, s', a)
    ensures Counted(s')
  {
    match a
    case DoEnter(c) => CountsUpdate(s.consumers, c, s'.consumers[c]);
    case DoLook(c) => CountsUpdate(s.consumers, c, s'.consumers[c]);
    case DoLeave(c) => CountsUpdate(s.consumers, c, s'.consumers[c]);
    case DoSteal(c, _) => CountsUpdate(s.consumers, c, s'.consumers[c]);
    case DoCountIn(c) => CountsUpdate(s.consumers, c, s'.consumers[c]);
    case DoConsume(c, _) => CountsUpdate(s.consumers, c, s'.consumers[c]);
    case DoCountOut(c) => CountsUpdate(s.consumers, c, s'.consumers[c]);
    case DoGoBack(c) => CountsUpdate(s.consumers, c, s'.consumers[c]);
    case _ =>
  }

  lemma StepBars(s: State, s': State, a: Action)
    requires Inv(s) && NextStep(s, s', a)
    ensures Barred(s')
  {
    AllWait(s.consumers);
  }

  /** A step that moves no task. */
  lemma SamePlaces(s: State, s': State)
    requires Placed(s) && s'.queue == s.queue && s'.place == s.place && s'.finished == s.finished
    requires |s'.consumers| == |s.consumers|
    requires forall c :: 0 <= c < |s.consumers| ==>
      (Holds(s'.consumers[c]) <==> Holds(s.consumers[c])) && (Holds(s.consumers[c]) ==> s'.consumers[c].x == s.consumers[c].x)
    ensures Placed(s')
  {
    forall x | x in s'.place ensures PlaceOk(s', x) { assert PlaceOk(s, x); }
  }

  lemma StealPlaces(s: State, s': State, c: nat)
    requires Placed(s) && s.queue != [] && Steal(s, s', c, true)
    ensures Placed(s')
  {
    forall x | x in s'.place ensures PlaceOk(s', x) {
      assert PlaceOk(s, x);
      if x != s.queue[0] && x in s.queue {
        var i :| 0 <= i < |s.queue| && s.queue[i] == x;
        assert s'.queue[i - 1] == x;
      }
    }
  }

  lemma SubmitPlaces(s: State, s': State, x: Task)
    requires Placed(s) && Submit(s, s', x)
    ensures Placed(s')
  {
    forall y | y in s'.place ensures PlaceOk(s', y) { assert y in s.place ==> PlaceOk(s, y); }
  }

  lemma ConsumePlaces(s: State, s': State, c: nat, more: bool)
    requires Placed(s) && Consume(s, s', c, more)
    ensures Placed(s')
  {
    forall x | x in s'.place ensures PlaceOk(s', x) { assert PlaceOk(s, x); }
  }

  lemma StepPlaces(s: State, s': State, a: Action)
    requires Placed(s) && NextStep(s, s', a)
    ensures Placed(s')
  {
    hide Placed;
    match a
    case DoSubmit(x) => SubmitPlaces(s, s', x);
    case DoSteal(c, lucky) =>
      if lucky && s.queue != [] { StealPlaces(s, s', c); } else { SamePlaces(s, s'); }
    case DoConsume(c, more) => ConsumePlaces(s, s', c, more);
    case _ => SamePlaces(s, s');
  }

  lemma {:induction false} RunInv(run: seq<State>)
    requires IsRun(run)
    ensures Inv(run[|run| - 1])
  {
    var m := |run| - 1;
    if m == 0 {
      NoneCounted(run[0].consumers);
    } else {
      RunInv(run[..m]);
      assert Next(run[m - 1], run[m]);
      var a :| NextStep(run[m - 1], run[m], a);
      StepCounts(run[m - 1], run[m], a);
      StepPlaces(run[m - 1], run[m], a);
      StepBars(run[m - 1], run[m], a);
    }
  }

  lemma {:induction false} NoneCounted(cs: seq<Consumer>)
    requires forall c :: 0 <= c < |cs| ==> cs[c] == Top
    ensures WaitingIn(cs) == 0 && WorkingIn(cs) == 0
  {
    if cs != [] { NoneCounted(cs[..|cs| - 1]); }
  }

  // ---------------------------------------------------------------------------------------
  // Theorems
  // ---------------------------------------------------------------------------------------

  /** When `WaitAll` returns, every task submitted is finished, exactly once, and nothing else is. */
  lemma Barrier(run: seq<State>, x: Task)
    requires IsRun(run) && run[|run| - 1].main == Returned
    ensures var s := run[|run| - 1]; x in s.place <==> x in s.finished
    ensures var s := run[|run| - 1]; s.queue == [] && forall j, k :: 0 <= j < k < |s.finished| ==> s.finished[j] != s.finished[k]
  {
    RunInv(run);
    var s := run[|run| - 1];
    if x in s.place { assert PlaceOk(s, x); }
  }

  /** At any time, no task is with two consumers, or both queued and held, or finished twice. */
  lemma TaskOnce(run: seq<State>, x: Task)
    requires IsRun(run) && x in run[|run| - 1].place
    ensures var s := run[|run| - 1];
      && PlaceOk(s, x)
      && (x in s.queue ==> s.place[x] == Queued) && (x in s.finished ==> s.place[x] == Done)
      && forall c :: 0 <= c < |s.consumers| && Holds(s.consumers[c]) && s.consumers[c].x == x ==> s.place[x] == Held(c)
  {
    RunInv(run);
    var s := run[|run| - 1];
    assert PlaceOk(s, x);
  }

  /** One consumer steals task 7 and is about to count itself; meanwhile the submitter asks. */
  ghost function Window(i: nat): State
    requires i < 9
  {
    var one := map[7 := Queued];
    if i == 0 then State([], 0, 0, Submitting, [Top], map[], [])
    else if i == 1 then State([7], 0, 0, Submitting, [Top], one, [])
    else if i == 2 then State([7], 0, 0, CheckQueue, [Top], one, [])
    else if i == 3 then State([7], 0, 1, CheckQueue, [Waiting], one, [])
    else if i == 4 then State([7], 0, 1, CheckQueue, [Leaving], one, [])
    else if i == 5 then State([7], 0, 0, CheckQueue, [Stealing], one, [])
    else State([], 0, 0, if i == 6 then CheckQueue else if i == 7 then CheckWorking else CheckWaiting, [Holding(7)], map[7 := Held(0)], [])
  }

  lemma WindowStep(i: nat)
    requires i < 8
    ensures Next(Window(i), Window(i + 1))
  {
    var s, s' := Window(i), Window(i + 1);
    if i == 0 { assert s'.queue == s.queue + [7] && s'.place == s.place[7 := Queued]; assert NextStep(s, s', DoSubmit(7)); }
    if i == 1 { assert NextStep(s, s', DoBeginWaitAll); }
    if i == 2 { assert NextStep(s, s', DoEnter(0)); }
    if i == 3 { assert NextStep(s, s', DoLook(0)); }
    if i == 4 { assert NextStep(s, s', DoLeave(0)); }
    if i == 5 { assert s'.queue == s.queue[1..] && s'.place == s.place[7 := Held(0)]; assert NextStep(s, s', DoSteal(0, true)); }
    if i == 6 { assert NextStep(s, s', DoAskQueue); }
    if i == 7 { assert NextStep(s, s', DoAskWorking); }
  }

  /**
   The first loop alone is no barrier: there is a run in which it ends while a consumer holds a stolen task that it
   has not counted yet.
   */
  lemma FirstLoopIsNotEnough() returns (run: seq<State>)
    ensures IsRun(run)
    ensures var s := run[|run| - 1]; s.main == CheckWaiting && s.queue == [] && s.working == 0 && s.consumers == [Holding(7)]
  {
    hide Next;
    run := seq(9, i requires 0 <= i < 9 => Window(i));
    forall i | 0 <= i < 8 ensures Next(run[i], run[i + 1]) { WindowStep(i); }
  }

  // ---------------------------------------------------------------------------------------
  // WaitAll can always return
  // ---------------------------------------------------------------------------------------

  /** The submitter goes on from each question exactly when what it waits for is so. */
  lemma QuestionsAnswered(run: seq<State>, s': State, a: Action)
    requires IsRun(run) && NextStep(run[|run| - 1], s', a)
    ensures var s := run[|run| - 1];
      && (a.DoAskQueue? ==> (s'.main == CheckWorking <==> s.queue == []) && (s.queue != [] ==> s'.main == CheckQueue))
      && (a.DoAskWorking? ==>
            (s'.main == CheckWaiting <==> forall c :: 0 <= c < |s.consumers| ==> !CountsAsWorking(s.consumers[c]))
            && (s'.main == CheckWaiting || s'.main == CheckQueue))
      && (a.DoAskWaiting? ==>
            (s'.main == Returned <==> forall c :: 0 <= c < |s.consumers| ==> CountsAsWaiting(s.consumers[c]))
            && (s'.main == Returned || s'.main == CheckWaiting))
  {
    RunInv(run);
    var s := run[|run| - 1];
    AllWait(s.consumers);
    if forall c :: 0 <= c < |s.consumers| ==> CountsAsWaiting(s.consumers[c]) { AllCounted(s.consumers); }
    NoneWorking(s.consumers);
  }

  lemma {:induction false} AllCounted(cs: seq<Consumer>)
    requires forall c :: 0 <= c < |cs| ==> CountsAsWaiting(cs[c])
    ensures WaitingIn(cs) == |cs|
  {
    if cs != [] { AllCounted(cs[..|cs| - 1]); }
  }

  lemma {:induction false} NoneWorking(cs: seq<Consumer>)
    ensures WorkingIn(cs) == 0 <==> forall c :: 0 <= c < |cs| ==> !CountsAsWorking(cs[c])
  {
    if cs != [] { NoneWorking(cs[..|cs| - 1]); }
  }

  /** How far a consumer is from taking a task, if there is one, or from waiting, if there is none. */
  function Distance(p: Consumer, empty: bool): nat {
    match p
    case Waiting => if empty then 0 else 3
    case Leaving => if empty then 7 else 2
    case Stealing => if empty then 6 else 1
    case Top => if empty then 1 else 4
    case Finished => 5
    case Stopping => 6
    case Again => 7
    case Working(_) => 7
    case Holding(_) => 8
  }

  ghost function Distances(cs: seq<Consumer>, empty: bool): nat {
    if cs == [] then 0 else Distances(cs[..|cs| - 1], empty) + Distance(cs[|cs| - 1], empty)
  }

  lemma {:induction false} DistancesUpdate(cs: seq<Consumer>, c: nat, p: Consumer, empty: bool)
    requires c < |cs|
    ensures Distances(cs[c := p], empty) == Distances(cs, empty) + Distance(p, empty) - Distance(cs[c], empty)
  {
    var n := |cs| - 1;
    if c < n {
      DistancesUpdate(cs[..n], c, p, empty);
      assert cs[c := p][..n] == cs[..n][c := p];
    } else {
      assert cs[c := p][..n] == cs[..n];
    }
  }

  /** The step a consumer takes next, going back to wait when there is a choice. */
  ghost function Onward(s: State, c: nat): Action
    requires c < |s.consumers|
  {
    match s.consumers[c]
    case Top => DoEnter(c)
    case Waiting => DoLook(c)
    case Leaving => DoLeave(c)
    case Stealing => DoSteal(c, true)
    case Again => DoSteal(c, true)
    case Holding(_) => DoCountIn(c)
    case Working(_) => DoConsume(c, false)
    case Stopping => DoCountOut(c)
    case Finished => DoGoBack(c)
  }

  /** A consumer that is not yet where it should be takes a task off the queue or comes nearer. */
  lemma MovesOn(s: State, c: nat) returns (s': State)
    requires c < |s.consumers| && (s.queue == [] ==> s.consumers[c] != Waiting)
    ensures Next(s, s') && s'.main == s.main && |s'.consumers| == |s.consumers|
    ensures |s'.queue| < |s.queue| || (s'.queue == s.queue && Distances(s'.consumers, s.queue == []) < Distances(s.consumers, s.queue == []))
  {
    var p, empty := s.consumers[c], s.queue == [];
    var q := if p == Top then Waiting else if p == Waiting then Leaving else if p == Leaving then Stealing
             else if p.Holding? then Working(p.x) else if p.Working? then Stopping else if p == Stopping then Finished
             else if p == Finished then Top else if p == Stealing then Finished else Stopping;
    var moved := s.(consumers := s.consumers[c := q]);
    s' := match p
      case Top => moved.(waiting := s.waiting + 1)
      case Leaving => moved.(waiting := s.waiting - 1)
      case Holding(x) => moved.(working := s.working + 1)
      case Working(x) => moved.(finished := s.finished + [x], place := s.place[x := Done])
      case Stopping => moved.(working := s.working - 1)
      case Stealing => if empty then moved else Taken(s, c)
      case Again => if empty then moved else Taken(s, c)
      case _ => moved;
    DistancesUpdate(s.consumers, c, q, empty);
    assert NextStep(s, s', Onward(s, c));
  }

  ghost function Taken(s: State, c: nat): State
    requires c < |s.consumers| && s.queue != []
  {
    s.(queue := s.queue[1..], place := s.place[s.queue[0] := Held(c)],
       consumers := s.consumers[c := if s.consumers[c] == Stealing then Holding(s.queue[0]) else Working(s.queue[0])])
  }

  function Questions(p: Submitter): nat { if p == CheckQueue then 3 else if p == CheckWorking then 2 else 1 }

  lemma RunOn(run: seq<State>, s': State)
    requires IsRun(run) && Next(run[|run| - 1], s')
    ensures IsRun(run + [s'])
  {
    hide Next;
    var r := run + [s'];
    forall i | 0 <= i < |r| - 1 ensures Next(r[i], r[i + 1]) { if i < |run| - 1 { assert r[i] == run[i] && r[i + 1] == run[i + 1]; } }
  }

  /** When all wait, each question takes the submitter on. */
  lemma AskNext(run: seq<State>) returns (s': State)
    requires IsRun(run)
    requires var s := run[|run| - 1];
      && s.queue == [] && (forall c :: 0 <= c < |s.consumers| ==> s.consumers[c] == Waiting)
      && (s.main == CheckQueue || s.main == CheckWorking || s.main == CheckWaiting)
    ensures var s := run[|run| - 1];
      && Next(s, s') && s' == s.(main := s'.main)
      && s'.main == if s.main == CheckQueue then CheckWorking else if s.main == CheckWorking then CheckWaiting else Returned
  {
    RunInv(run);
    var s := run[|run| - 1];
    AllCounted(s.consumers);
    NoneWorking(s.consumers);
    s' := s.(main := if s.main == CheckQueue then CheckWorking else if s.main == CheckWorking then CheckWaiting else Returned);
    assert NextStep(s, s', if s.main == CheckQueue then DoAskQueue else if s.main == CheckWorking then DoAskWorking else DoAskWaiting);
  }

  /** Whatever has happened since `WaitAll` was called, the run can go on so that it returns, if there is a consumer at all. */
  lemma {:induction false} CanReturn(run: seq<State>) returns (r: seq<State>)
    requires IsRun(run)
    requires var s := run[|run| - 1];
      && (s.queue == [] || s.consumers != [])
      && (s.main == CheckQueue || s.main == CheckWorking || s.main == CheckWaiting)
    ensures IsRun(r) && run <= r && r[|r| - 1].main == Returned
    decreases |run[|run| - 1].queue|, Distances(run[|run| - 1].consumers, run[|run| - 1].queue == []), Questions(run[|run| - 1].main)
  {
    hide Next, Init;
    var s := run[|run| - 1];
    var s';
    if s.queue != [] {
      s' := MovesOn(s, 0);
    } else if c :| 0 <= c < |s.consumers| && s.consumers[c] != Waiting {
      s' := MovesOn(s, c);
    } else {
      s' := AskNext(run);
    }
    RunOn(run, s');
    if s'.main == Returned { r := run + [s']; } else { r := CanReturn(run + [s']); }
  }
}
