/**
  The settings' screen of the app lock: when arming it anew keeps the promise that the lock is changed or removed
  only after every factor was given in one run of the screen.
 */
module Settings {
  import Numbers
  import opened Gate

  /** Past a factor that this run of the screen has not been given. */
  ghost predicate Skipped(i: nat, p: Screen, passed: set<(nat, nat)>, cleared: set<(nat, nat)>) {
    || ((p.stage != Current || p.intent == DisableDone) && (i, p.run) !in passed)
    || ((p.stage in {New, Confirm} || p.intent == DisableDone) && (i, p.run) !in cleared)
  }

  ghost predicate Skips(s: State, i: nat) {
    i in s.screens && Skipped(i, s.screens[i], s.passed, s.cleared)
  }

  /** No action arms screen i anew. */
  ghost predicate OneRun(i: nat, acts: seq<Action>) {
    forall k :: 0 <= k < |acts| && acts[k].Begin? ==> acts[k].i != i
  }

  /** Whatever happens, the current run of screen i never gets past a factor it was not given. */
  ghost predicate StaysClean(s: State, i: nat) {
    forall acts: seq<Action> :: !SkipsAfter(s, acts, i)
  }

  ghost predicate SkipsAfter(s: State, acts: seq<Action>, i: nat) {
    Runs(s, acts) && OneRun(i, acts) && Skips(Last(s, acts), i)
  }

  predicate Failed(w: Work) {
    w.Answer? && !w.o.ok
  }

  /** All that screen i still waits for has failed already. */
  ghost predicate OnlyFailures(s: State, i: nat) {
    forall j :: j in s.jobs && s.jobs[j].screen == i ==> Failed(s.jobs[j].work)
  }

  // ----- what one step of a job does -----

  function Became(a: Action, totp: bool): Work
    requires IsWork(a)
  {
    match a
    case AnswerFirst(_, ok) => if ok then FirstPassed else Answer(Outcome(false, false))
    case LookUpTotp(_, readable) => if totp && readable then Answer(Outcome(true, true)) else Opening
    case Open(_) => Answer(Outcome(true, false))
    case AnswerSecond(_, ok) => Answer(Outcome(ok, false))
    case FinishSet(_, ok) => Answer(Outcome(ok, false))
    case RemoveSecond(_, _) => RemovingPin
    case FinishRemove(_, ok) => Answer(Outcome(ok, false))
  }

  predicate Passes(a: Action) {
    a.AnswerFirst? && a.ok
  }

  predicate Clears(a: Action, totp: bool) {
    (a.AnswerSecond? && a.ok) || (a.LookUpTotp? && !(totp && a.readable))
  }

  ghost function FactorOf(s: State, j: nat, given: bool): set<(nat, nat)>
    requires j in s.jobs
  {
    if given then {(s.jobs[j].screen, s.jobs[j].run)} else {}
  }

  /** The work the action takes up. */
  ghost predicate TakesUp(a: Action, w: Work) {
    match a
    case AnswerFirst(_, _) => w.First?
    case LookUpTotp(_, _) => w.FirstPassed?
    case Open(_) => w.Opening?
    case AnswerSecond(_, _) => w.Second?
    case FinishSet(_, _) => w.Setting?
    case RemoveSecond(_, _) => w.Removing?
    case FinishRemove(_, _) => w.RemovingPin?
    case _ => false
  }

  ghost predicate Moves(s: State, a: Action, t: State)
    requires IsWork(a)
  {
    && a.j in s.jobs && s.jobs[a.j].screen in s.screens && TakesUp(a, s.jobs[a.j].work)
    && t.screens == s.screens && t.jobs == s.jobs[a.j := s.jobs[a.j].(work := Became(a, s.totp))]
    && t.passed == s.passed + FactorOf(s, a.j, Passes(a))
    && t.cleared == s.cleared + FactorOf(s, a.j, Clears(a, s.totp))
  }

  lemma FirstMoves(s: State, j: nat, ok: bool)
    requires Enabled(s, AnswerFirst(j, ok))
    ensures Moves(s, AnswerFirst(j, ok), Next(s, AnswerFirst(j, ok)))
  {
  }

  lemma LookupMoves(s: State, j: nat, readable: bool)
    requires Enabled(s, LookUpTotp(j, readable))
    ensures Moves(s, LookUpTotp(j, readable), Next(s, LookUpTotp(j, readable)))
  {
  }

  lemma SecondMoves(s: State, j: nat, ok: bool)
    requires Enabled(s, AnswerSecond(j, ok))
    ensures Moves(s, AnswerSecond(j, ok), Next(s, AnswerSecond(j, ok)))
  {
    if ok {
      if s.jobs[j].work.unlockOn { CodeOpens(s, j); } else { CodeConfirms(s, j); }
    }
  }

  lemma CodeOpens(s: State, j: nat)
    requires Enabled(s, AnswerSecond(j, true)) && s.jobs[j].work.unlockOn
    ensures Moves(s, AnswerSecond(j, true), Next(s, AnswerSecond(j, true)))
  {
    assert Next(s, AnswerSecond(j, true)) == Work1(Unlocked(Cleared(s, j)), j, Answer(Outcome(true, false)));
  }

  lemma CodeConfirms(s: State, j: nat)
    requires Enabled(s, AnswerSecond(j, true)) && !s.jobs[j].work.unlockOn
    ensures Moves(s, AnswerSecond(j, true), Next(s, AnswerSecond(j, true)))
  {
    assert Next(s, AnswerSecond(j, true)) == Work1(Cleared(s, j), j, Answer(Outcome(true, false)));
  }

  lemma LastWorkMoves(s: State, a: Action)
    requires Enabled(s, a) && (a.Open? || a.FinishSet? || a.RemoveSecond? || a.FinishRemove?)
    ensures Moves(s, a, Next(s, a))
  {
  }

  lemma WorkMoves(s: State, a: Action)
    requires Enabled(s, a) && IsWork(a)
    ensures Moves(s, a, Next(s, a))
  {
    match a
    case AnswerFirst(j, ok) => FirstMoves(s, j, ok);
    case LookUpTotp(j, readable) => LookupMoves(s, j, readable);
    case AnswerSecond(j, ok) => SecondMoves(s, j, ok);
    case _ => LastWorkMoves(s, a);
  }

  // ----- what every run keeps -----

  ghost predicate NoLater(r: (nat, nat), screens: map<nat, Screen>) {
    r.0 in screens && r.1 <= screens[r.0].run
  }

  /** Jobs and right first factors are of the current or an earlier run of their screen. */
  ghost predicate Ordered(s: State) {
    && (forall j :: j in s.jobs ==> NoLater((s.jobs[j].screen, s.jobs[j].run), s.screens))
    && (forall r :: r in s.passed ==> NoLater(r, s.screens))
  }

  lemma ScreenKeepsOrdered(s: State, i: nat, p: Screen)
    requires Ordered(s) && (i in s.screens ==> s.screens[i].run <= p.run)
    ensures Ordered(s.(screens := s.screens[i := p]))
  {
  }

  lemma StartKeepsOrdered(s: State, i: nat, r: (Screen, Option<Work>), j: nat)
    requires Ordered(s) && i in s.screens && s.screens[i].run <= r.0.run
    ensures Ordered(Started(s, i, r, j))
  {
    ScreenKeepsOrdered(s, i, r.0);
  }

  lemma MovingKeepsOrdered(s: State, a: Action, t: State)
    requires Ordered(s) && IsWork(a) && Moves(s, a, t)
    ensures Ordered(t)
  {
    var job := s.jobs[a.j];
    assert NoLater((job.screen, job.run), s.screens);
  }

  lemma WorkKeepsOrdered(s: State, a: Action)
    requires Ordered(s) && Enabled(s, a) && IsWork(a)
    ensures Ordered(Next(s, a))
  {
    WorkMoves(s, a);
    MovingKeepsOrdered(s, a, Next(s, a));
  }

  lemma OrderedAfterScreen(s: State, a: Action)
    requires Ordered(s) && Enabled(s, a) && (a.Tap? || a.Biometric? || a.Fold?)
    ensures Ordered(Next(s, a))
  {
    match a
    case Tap(i, key, j) => StartKeepsOrdered(s, i, Tapped(s.screens[i], key), j);
    case Biometric(i, j) => StartKeepsOrdered(s, i, (s.screens[i].(busy := true), Some(First)), j);
    case Fold(i, j) => StartKeepsOrdered(s, i, FoldedIn(s.screens[i]), j);
  }

  lemma OrderedAfterDelivery(s: State, j: nat)
    requires Ordered(s) && Enabled(s, Deliver(j))
    ensures Ordered(Next(s, Deliver(j)))
  {
    var i := s.jobs[j].screen;
    ScreenKeepsOrdered(s, i, s.screens[i].(pending := Some(s.jobs[j].work.o)));
  }

  lemma OrderedStep(s: State, a: Action)
    requires Ordered(s) && Enabled(s, a)
    ensures Ordered(Next(s, a))
  {
    if a.Tap? || a.Biometric? || a.Fold? {
      OrderedAfterScreen(s, a);
    } else if IsWork(a) {
      WorkKeepsOrdered(s, a);
    } else if a.Begin? {
      ScreenKeepsOrdered(s, a.i, Begun(s.screens[a.i], a.intent));
    } else if a.Deliver? {
      OrderedAfterDelivery(s, a.j);
    }
  }

  lemma StartsOrdered(settings: nat)
    requires settings != GATE
    ensures Ordered(Start(settings)) && Waits(Start(settings))
  {
  }

  lemma {:induction false} OrderedOverRuns(s: State, acts: seq<Action>)
    requires Ordered(s) && Runs(s, acts)
    ensures Ordered(Last(s, acts))
    decreases |acts|
  {
    if acts != [] {
      OrderedStep(s, acts[0]);
      OrderedOverRuns(Next(s, acts[0]), acts[1..]);
    }
  }

  // ----- a clean run of one screen -----

  /** The screen has got no further than the factors given in its run, and what it is told next is of that run. */
  ghost predicate CleanScreen(i: nat, p: Screen, passed: set<(nat, nat)>, cleared: set<(nat, nat)>) {
    && p.intent in {Change, Disable, DisableDone}
    && !Skipped(i, p, passed, cleared)
    && (p.pending.Some? && p.pending.value.ok ==>
          (i, p.run) in passed && (p.pending.value.totpNext || (i, p.run) in cleared))
  }

  ghost predicate CleanJob(job: Job, run: nat, passed: set<(nat, nat)>, cleared: set<(nat, nat)>) {
    Failed(job.work) || (job.run == run && Backed(job.work, (job.screen, run) in passed, (job.screen, run) in cleared))
  }

  /** The work follows from no more than the factors given. */
  predicate Backed(w: Work, passed: bool, cleared: bool) {
    match w
    case First => true
    case FirstPassed => passed
    case Second(_) => passed
    case Answer(o) => passed && (o.totpNext || cleared)
    case _ => passed && cleared
  }

  ghost predicate Clean(s: State, i: nat) {
    && i in s.screens && CleanScreen(i, s.screens[i], s.passed, s.cleared)
    && (forall j :: j in s.jobs && s.jobs[j].screen == i ==>
          CleanJob(s.jobs[j], s.screens[i].run, s.passed, s.cleared))
  }

  lemma StartKeepsClean(s: State, i: nat, i': nat, r: (Screen, Option<Work>), j: nat)
    requires Clean(s, i) && j !in s.jobs
    requires i' == i ==> r.0.run == s.screens[i].run && CleanScreen(i, r.0, s.passed, s.cleared)
    requires i' == i && r.1.Some? ==> Backed(r.1.value, (i, r.0.run) in s.passed, (i, r.0.run) in s.cleared)
    ensures Clean(Started(s, i', r, j), i)
  {
  }

  lemma TapIsClean(i: nat, p: Screen, key: Key, passed: set<(nat, nat)>, cleared: set<(nat, nat)>)
    requires CleanScreen(i, p, passed, cleared)
    ensures var r := Tapped(p, key);
      && r.0.run == p.run && CleanScreen(i, r.0, passed, cleared)
      && (r.1.Some? ==> Backed(r.1.value, (i, p.run) in passed, (i, p.run) in cleared))
  {
  }

  lemma FoldIsClean(i: nat, p: Screen, passed: set<(nat, nat)>, cleared: set<(nat, nat)>)
    requires CleanScreen(i, p, passed, cleared)
    ensures var r := FoldedIn(p);
      && r.0.run == p.run && CleanScreen(i, r.0, passed, cleared)
      && (r.1.Some? ==> Backed(r.1.value, (i, p.run) in passed, (i, p.run) in cleared))
  {
  }

  lemma DeliverKeepsClean(s: State, j: nat, i: nat)
    requires Clean(s, i) && Enabled(s, Deliver(j))
    ensures Clean(Next(s, Deliver(j)), i)
  {
    if s.jobs[j].screen == i { assert CleanJob(s.jobs[j], s.screens[i].run, s.passed, s.cleared); }
  }

  /** More factors given, and one job moved on. */
  lemma JobKeepsClean(s: State, j: nat, w: Work, t: State, i: nat)
    requires Clean(s, i) && j in s.jobs && t.screens == s.screens && t.jobs == Work1(s, j, w).jobs
    requires s.passed <= t.passed && s.cleared <= t.cleared
    requires s.jobs[j].screen == i ==>
      CleanJob(s.jobs[j].(work := w), s.screens[i].run, t.passed, t.cleared)
    ensures Clean(t, i)
  {
  }

  lemma MovingKeepsClean(s: State, a: Action, t: State, i: nat)
    requires Clean(s, i) && IsWork(a) && Moves(s, a, t)
    ensures Clean(t, i)
  {
    if s.jobs[a.j].screen == i { assert CleanJob(s.jobs[a.j], s.screens[i].run, s.passed, s.cleared); }
    JobKeepsClean(s, a.j, Became(a, s.totp), t, i);
  }

  lemma WorkKeepsClean(s: State, a: Action, i: nat)
    requires Clean(s, i) && Enabled(s, a) && IsWork(a)
    ensures Clean(Next(s, a), i)
  {
    WorkMoves(s, a);
    MovingKeepsClean(s, a, Next(s, a), i);
  }

  lemma CleanStep(s: State, a: Action, i: nat)
    requires Clean(s, i) && Enabled(s, a) && (a.Begin? ==> a.i != i)
    ensures Clean(Next(s, a), i)
  {
    match a
    case Tap(i', key, j) =>
      if i' == i { TapIsClean(i, s.screens[i], key, s.passed, s.cleared); }
      StartKeepsClean(s, i, i', Tapped(s.screens[i'], key), j);
    case Biometric(i', j) => StartKeepsClean(s, i, i', (s.screens[i'].(busy := true), Some(First)), j);
    case Fold(i', j) =>
      if i' == i { FoldIsClean(i, s.screens[i], s.passed, s.cleared); }
      StartKeepsClean(s, i, i', FoldedIn(s.screens[i']), j);
    case Begin(_, _) =>
    case Deliver(j) => DeliverKeepsClean(s, j, i);
    case LockNow =>
    case Load =>
    case Commit =>
    case EnrollTotp =>
    case RemoveTotp =>
    case _ => WorkKeepsClean(s, a, i);
  }

  lemma {:induction false} CleanOverRuns(s: State, acts: seq<Action>, i: nat)
    requires Clean(s, i) && Runs(s, acts) && OneRun(i, acts)
    ensures Clean(Last(s, acts), i)
    decreases |acts|
  {
    if acts != [] {
      CleanStep(s, acts[0], i);
      forall k | 0 <= k < |acts[1..]| && acts[1..][k].Begin? ensures acts[1..][k].i != i {
        assert acts[1..][k] == acts[k + 1];
      }
      CleanOverRuns(Next(s, acts[0]), acts[1..], i);
    }
  }

  lemma OnlyFailuresStayClean(s: State, i: nat, intent: Intent)
    requires Enabled(s, Begin(i, intent)) && intent in {Change, Disable} && OnlyFailures(s, i)
    ensures StaysClean(Next(s, Begin(i, intent)), i)
  {
    var t := Next(s, Begin(i, intent));
    assert Clean(t, i);
    forall acts: seq<Action> ensures !SkipsAfter(t, acts, i) {
      if Runs(t, acts) {
        if OneRun(i, acts) { CleanOverRuns(t, acts, i); }
      }
    }
  }

  // ----- an outcome of an earlier run -----

  /** Screen i asks for its first factor while job j of an earlier run has not failed. */
  ghost predicate Stale(s: State, i: nat, j: nat) {
    && i in s.screens && j in s.jobs && s.jobs[j].screen == i && !Failed(s.jobs[j].work)
    && s.screens[i].stage == Current && s.screens[i].intent in {Change, Disable}
    && s.jobs[j].run < s.screens[i].run && (i, s.screens[i].run) !in s.passed
  }

  /** Steps a job is from its outcome. */
  function ToGo(w: Work): nat {
    match w
    case First => 3
    case FirstPassed => 2
    case Removing => 2
    case Answer(_) => 0
    case _ => 1
  }

  /** The job's next step when all goes well. */
  function Onward(j: nat, w: Work): (a: Action) {
    match w
    case First => AnswerFirst(j, true)
    case FirstPassed => LookUpTotp(j, true)
    case Opening => Open(j)
    case Second(_) => AnswerSecond(j, true)
    case Setting(_) => FinishSet(j, true)
    case Removing => RemoveSecond(j, true)
    case RemovingPin => FinishRemove(j, true)
    case Answer(_) => Deliver(j)
  }

  lemma OnwardStaysStale(s: State, i: nat, j: nat)
    requires Stale(s, i, j) && !s.jobs[j].work.Answer?
    ensures var a := Onward(j, s.jobs[j].work);
      && Enabled(s, a) && IsWork(a) && Stale(Next(s, a), i, j)
      && ToGo(Next(s, a).jobs[j].work) < ToGo(s.jobs[j].work)
  {
    var a := Onward(j, s.jobs[j].work);
    OnwardIsEnabled(s, j);
    WorkMoves(s, a);
    MovingStaysStale(s, i, j, Next(s, a));
  }

  lemma OnwardIsEnabled(s: State, j: nat)
    requires j in s.jobs && s.jobs[j].screen in s.screens && !s.jobs[j].work.Answer?
    ensures var a := Onward(j, s.jobs[j].work); IsWork(a) && a.j == j && Enabled(s, a)
  {
  }

  lemma MovingStaysStale(s: State, i: nat, j: nat, t: State)
    requires Stale(s, i, j) && !s.jobs[j].work.Answer?
    requires var a := Onward(j, s.jobs[j].work); IsWork(a) && a.j == j && Moves(s, a, t)
    ensures Stale(t, i, j) && ToGo(t.jobs[j].work) < ToGo(s.jobs[j].work)
  {
  }

  /** The outcome arrives, and folding it in carries the screen past its first factor. */
  lemma ArrivalSkips(s: State, i: nat, j: nat) returns (acts: seq<Action>)
    requires Stale(s, i, j) && s.jobs[j].work.Answer?
    ensures SkipsAfter(s, acts, i)
  {
    var t := Next(s, Deliver(j));
    var k := Numbers.Unused(t.jobs.Keys);
    var fold := [Fold(i, k)];
    assert fold[1..] == [];
    FoldSkips(t, i, k);
    var u := Next(t, Fold(i, k));
    assert Runs(u, []) && Last(u, []) == u;
    assert Runs(t, fold) && Last(t, fold) == u;
    acts := After(s, Deliver(j), fold, i);
  }

  lemma FoldSkips(s: State, i: nat, k: nat)
    requires Enabled(s, Fold(i, k)) && s.screens[i].pending.Some? && s.screens[i].pending.value.ok
    requires s.screens[i].stage == Current && s.screens[i].intent in {Change, Disable}
    requires (i, s.screens[i].run) !in s.passed
    ensures Skips(Next(s, Fold(i, k)), i)
  {
  }

  lemma After(s: State, a: Action, rest: seq<Action>, i: nat) returns (acts: seq<Action>)
    requires Enabled(s, a) && !a.Begin? && SkipsAfter(Next(s, a), rest, i)
    ensures SkipsAfter(s, acts, i)
  {
    acts := [a] + rest;
    assert acts[1..] == rest;
  }

  lemma {:induction false} StaleSkips(s: State, i: nat, j: nat) returns (acts: seq<Action>)
    requires Stale(s, i, j)
    ensures SkipsAfter(s, acts, i)
    decreases ToGo(s.jobs[j].work)
  {
    if s.jobs[j].work.Answer? {
      acts := ArrivalSkips(s, i, j);
    } else {
      OnwardStaysStale(s, i, j);
      var a := Onward(j, s.jobs[j].work);
      acts := StaleSkips(Next(s, a), i, j);
      acts := After(s, a, acts, i);
    }
  }

  /**
    Arming the settings' screen to change or remove the lock keeps its promise exactly if nothing the screen waits for
    can still succeed.
   */
  lemma BeginIsCleanIff(s: State, i: nat, intent: Intent)
    requires Ordered(s) && Enabled(s, Begin(i, intent)) && intent in {Change, Disable}
    ensures StaysClean(Next(s, Begin(i, intent)), i) <==> OnlyFailures(s, i)
  {
    var t := Next(s, Begin(i, intent));
    if OnlyFailures(s, i) {
      OnlyFailuresStayClean(s, i, intent);
    } else {
      var j :| j in s.jobs && s.jobs[j].screen == i && !Failed(s.jobs[j].work);
      assert NoLater((s.jobs[j].screen, s.jobs[j].run), s.screens);
      assert !NoLater((i, t.screens[i].run), s.screens);
      var acts := StaleSkips(t, i, j);
    }
  }

  // ----- the form a caller can check -----

  /** A screen that waits for something shows as busy; it waits for one thing at a time. */
  ghost predicate Waits(s: State) {
    && (forall j :: j in s.jobs ==> WaitedFor(s.jobs[j].screen, s.screens))
    && (forall j, k :: j in s.jobs && k in s.jobs && s.jobs[j].screen == s.jobs[k].screen ==> j == k)
    && (forall i :: i in s.screens && s.screens[i].pending.Some? ==> s.screens[i].busy)
  }

  ghost predicate WaitedFor(i: nat, screens: map<nat, Screen>) {
    i in screens && screens[i].busy && screens[i].pending.None?
  }

  /** Screens are armed anew only when they are not busy. */
  ghost predicate Patient(s: State, a: Action) {
    a.Begin? ==> a.i in s.screens && !s.screens[a.i].busy
  }

  ghost predicate PatientRun(s: State, acts: seq<Action>)
    requires Runs(s, acts)
    decreases |acts|
  {
    acts == [] || (Patient(s, acts[0]) && PatientRun(Next(s, acts[0]), acts[1..]))
  }

  lemma StartKeepsWaits(s: State, i: nat, r: (Screen, Option<Work>), j: nat)
    requires Waits(s) && i in s.screens && j !in s.jobs
    requires r.0.pending.Some? ==> r.0.busy
    requires WaitedFor(i, s.screens) ==> r.0.busy && r.0.pending.None? && r.1.None?
    requires r.1.Some? ==> r.0.busy && r.0.pending.None?
    ensures Waits(Started(s, i, r, j))
  {
  }

  lemma DeliverKeepsWaits(s: State, j: nat)
    requires Waits(s) && Enabled(s, Deliver(j))
    ensures Waits(Next(s, Deliver(j)))
  {
    assert WaitedFor(s.jobs[j].screen, s.screens);
  }

  lemma WorkKeepsWaits(s: State, a: Action)
    requires Waits(s) && Enabled(s, a) && IsWork(a)
    ensures Waits(Next(s, a))
  {
    WorkMoves(s, a);
    MovingKeepsWaits(s, a, Next(s, a));
  }

  lemma MovingKeepsWaits(s: State, a: Action, t: State)
    requires Waits(s) && IsWork(a) && Moves(s, a, t)
    ensures Waits(t)
  {
  }

  lemma WaitsStep(s: State, a: Action)
    requires Waits(s) && Enabled(s, a) && Patient(s, a)
    ensures Waits(Next(s, a))
  {
    match a
    case Tap(i, key, j) => StartKeepsWaits(s, i, Tapped(s.screens[i], key), j);
    case Biometric(i, j) => StartKeepsWaits(s, i, (s.screens[i].(busy := true), Some(First)), j);
    case Fold(i, j) => StartKeepsWaits(s, i, FoldedIn(s.screens[i]), j);
    case Begin(_, _) =>
    case Deliver(j) => DeliverKeepsWaits(s, j);
    case LockNow =>
    case Load =>
    case Commit =>
    case EnrollTotp =>
    case RemoveTotp =>
    case _ => WorkKeepsWaits(s, a);
  }

  lemma {:induction false} WaitsOverRuns(s: State, acts: seq<Action>)
    requires Waits(s) && Runs(s, acts) && PatientRun(s, acts)
    ensures Waits(Last(s, acts))
    decreases |acts|
  {
    if acts != [] {
      WaitsStep(s, acts[0]);
      WaitsOverRuns(Next(s, acts[0]), acts[1..]);
    }
  }

  /** From the program's start, arming screens only when they are not busy keeps every run of the settings clean. */
  lemma PatientBeginIsClean(settings: nat, acts: seq<Action>, i: nat, intent: Intent)
    requires settings != GATE && Runs(Start(settings), acts) && PatientRun(Start(settings), acts)
    requires var t := Last(Start(settings), acts);
      Enabled(t, Begin(i, intent)) && Patient(t, Begin(i, intent)) && intent in {Change, Disable}
    ensures StaysClean(Next(Last(Start(settings), acts), Begin(i, intent)), i)
  {
    WaitsOverRuns(Start(settings), acts);
    var t := Last(Start(settings), acts);
    assert !WaitedFor(i, t.screens);
    OnlyFailuresStayClean(t, i, intent);
  }
}
