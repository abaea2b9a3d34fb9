/** That nobody is locked out: a busy screen always waits for something, and right answers always open the app. */
module Opening {
  import Numbers
  import opened Gate
  import opened Settings

  // ----- a busy screen waits for something -----

  ghost predicate HasJob(i: nat, jobs: map<nat, Job>) {
    exists j :: j in jobs && jobs[j].screen == i
  }

  /** Every screen that takes no answer now has an outcome queued or a verification under way. */
  ghost predicate Awaited(s: State) {
    forall i :: i in s.screens && s.screens[i].busy ==> s.screens[i].pending.Some? || HasJob(i, s.jobs)
  }

  lemma StartKeepsAwaited(s: State, i: nat, r: (Screen, Option<Work>), j: nat)
    requires Awaited(s) && i in s.screens && j !in s.jobs
    requires r.0.busy && r.1.None? && r.0.pending.None? ==> s.screens[i].busy && s.screens[i].pending.None?
    ensures Awaited(Started(s, i, r, j))
  {
    var t := Started(s, i, r, j);
    forall k | k in t.screens && t.screens[k].busy
      ensures t.screens[k].pending.Some? || HasJob(k, t.jobs)
    {
      if k == i && r.1.Some? {
        assert t.jobs[j].screen == k;
      } else if HasJob(k, s.jobs) {
        var m :| m in s.jobs && s.jobs[m].screen == k;
        assert m in t.jobs && t.jobs[m] == s.jobs[m];
      }
    }
  }

  lemma DeliverKeepsAwaited(s: State, j: nat)
    requires Awaited(s) && Enabled(s, Deliver(j))
    ensures Awaited(Next(s, Deliver(j)))
  {
    var t := Next(s, Deliver(j));
    forall k | k in t.screens && t.screens[k].busy
      ensures t.screens[k].pending.Some? || HasJob(k, t.jobs)
    {
      if k != s.jobs[j].screen && HasJob(k, s.jobs) {
        var m :| m in s.jobs && s.jobs[m].screen == k;
        assert m in t.jobs && t.jobs[m] == s.jobs[m];
      }
    }
  }

  lemma MovingKeepsAwaited(s: State, a: Action, t: State)
    requires Awaited(s) && IsWork(a) && Moves(s, a, t)
    ensures Awaited(t)
  {
    forall k | HasJob(k, s.jobs)
      ensures HasJob(k, t.jobs)
    {
      var m :| m in s.jobs && s.jobs[m].screen == k;
      assert m in t.jobs && t.jobs[m].screen == k;
    }
  }

  lemma AwaitedStep(s: State, a: Action)
    requires Awaited(s) && Enabled(s, a)
    ensures Awaited(Next(s, a))
  {
    match a
    case Tap(i, key, j) => StartKeepsAwaited(s, i, Tapped(s.screens[i], key), j);
    case Biometric(i, j) => StartKeepsAwaited(s, i, (s.screens[i].(busy := true), Some(First)), j);
    case Fold(i, j) => StartKeepsAwaited(s, i, FoldedIn(s.screens[i]), j);
    case Deliver(j) => DeliverKeepsAwaited(s, j);
    case _ =>
      if IsWork(a) {
        WorkMoves(s, a);
        MovingKeepsAwaited(s, a, Next(s, a));
      }
  }

  /** Over every run a busy screen waits for something; and whatever a screen waits for can go on. */
  lemma {:induction false} BusyIsAwaited(s: State, acts: seq<Action>)
    requires Awaited(s) && Runs(s, acts)
    ensures Awaited(Last(s, acts))
    decreases |acts|
  {
    if acts != [] {
      AwaitedStep(s, acts[0]);
      BusyIsAwaited(Next(s, acts[0]), acts[1..]);
    }
  }

  /** An answer folded in leaves the pad free and empty, unless it starts the removal of the lock. */
  lemma AnswerFreesPad(s: Screen)
    requires s.pending.Some?
    ensures var r := FoldedIn(s);
      && r.0.pending.None? && r.0.pin == "" && (r.0.busy <==> r.1 == Some(Removing))
      && (r.1 == Some(Removing) <==>
            s.pending.value == Outcome(true, false) && s.intent == Disable && s.stage != Confirm)
      && (!s.pending.value.ok ==> r.0.stage == s.stage && r.0.intent == s.intent)
  {
  }

  /** The PIN that is set is the one entered twice in a row. */
  lemma SetPinWasRepeated(s: Screen, key: Key)
    ensures var r := Tapped(s, key);
      && (r.1.Some? && r.1.value.Setting? ==> s.stage == Confirm && r.1.value.pin == s.pin == s.newPin)
      && (r.0.newPin != s.newPin ==> s.stage == New && r.0.stage == Confirm && r.0.newPin == s.pin)
  {
  }

  /** A digit goes to the end of the entry while there is room, and Backspace takes it away again. */
  lemma BackspaceUndoes(s: Screen, c: char)
    requires |s.pin| < if s.stage == Totp then 5 else 12
    ensures var r := Tapped(s, Digit(c)); r.0.pin == s.pin + [c] && r.1.None? && Tapped(r.0, Backspace) == (s, None)
  {
    var r := Tapped(s, Digit(c));
    assert r.0.pin[..|r.0.pin| - 1] == s.pin;
  }

  function Typed(s: Screen, digits: string): Screen
    decreases |digits|
  {
    if digits == "" then s else Typed(Tapped(s, Digit(digits[0])).0, digits[1..])
  }

  /** Typing on an idle screen enters what is typed; submitted, it is what the stage is about. */
  lemma {:induction false} TypingEnters(s: Screen, digits: string)
    requires |s.pin| + |digits| <= if s.stage == Totp then 5 else 12
    ensures Typed(s, digits) == s.(pin := s.pin + digits)
    decreases |digits|
  {
    if digits == "" {
      assert s.pin + digits == s.pin;
    } else {
      BackspaceUndoes(s, digits[0]);
      TypingEnters(s.(pin := s.pin + [digits[0]]), digits[1..]);
      assert s.pin + [digits[0]] + digits[1..] == s.pin + digits;
    }
  }

  /** What submitting an entry of four digits or more starts. */
  lemma SubmitStarts(s: Screen)
    requires |s.pin| >= 4 && !s.busy
    ensures var r := Tapped(s, Submit);
      match s.stage
      case Current => r == (s.(busy := true), Some(First))
      case Totp => r == (s.(busy := true), Some(Second(s.intent == Unlock)))
      case New => r.1.None? && r.0.stage == Confirm && r.0.newPin == s.pin && r.0.pin == ""
      case Confirm =>
        if s.pin == s.newPin then r == (s.(busy := true), Some(Setting(s.pin)))
        else r.1.None? && r.0.stage == New && r.0.pin == ""
  {
  }

  // ----- right answers open the gate -----

  /** The gate asks for a PIN or a code, and for nothing else. */
  ghost predicate Asks(s: State) {
    && Guarded(s) && Awaited(s) && GATE in s.screens && s.screens[GATE].stage in {Current, Totp}
    && forall j :: j in s.jobs && s.jobs[j].screen == GATE ==> GateWork(s.jobs[j].work)
  }

  predicate GateWork(w: Work) {
    w.First? || w.FirstPassed? || w.Answer? || w == Second(true)
  }

  /** What a gate that is tapped or answered looks like next. */
  lemma GateStays(p: Screen, key: Key)
    requires p.stage in {Current, Totp} && p.intent == Unlock
    ensures var r := Tapped(p, key); r.0.stage in {Current, Totp} && (r.1.Some? ==> GateWork(r.1.value))
    ensures var r := FoldedIn(p); r.0.stage in {Current, Totp} && r.1.None?
  {
  }

  lemma StartKeepsAsking(s: State, i: nat, r: (Screen, Option<Work>), j: nat)
    requires Asks(s) && i in s.screens && j !in s.jobs
    requires i == GATE ==> r.0.stage in {Current, Totp} && (r.1.Some? ==> GateWork(r.1.value))
    requires Guarded(Started(s, i, r, j)) && Awaited(Started(s, i, r, j))
    ensures Asks(Started(s, i, r, j))
  {
  }

  lemma MovingKeepsAsking(s: State, a: Action, t: State)
    requires Asks(s) && IsWork(a) && Moves(s, a, t) && Guarded(t) && Awaited(t)
    requires s.jobs[a.j].screen == GATE ==> GateWork(Became(a, s.totp))
    ensures Asks(t)
  {
  }

  lemma GateWorkStays(s: State, a: Action)
    requires Asks(s) && IsWork(a) && Enabled(s, a) && Orderly(s, a) && s.jobs[a.j].screen == GATE
    ensures GateWork(Became(a, s.totp))
  {
    assert GateWork(s.jobs[a.j].work);
  }

  lemma AskingAfterScreen(s: State, a: Action)
    requires Asks(s) && Enabled(s, a) && (a.Tap? || a.Biometric? || a.Fold?)
    requires Guarded(Next(s, a)) && Awaited(Next(s, a))
    ensures Asks(Next(s, a))
  {
    assert GoodState(GATE, s.screens[GATE], s.passed);
    match a
    case Tap(i, key, j) =>
      if i == GATE { GateStays(s.screens[GATE], key); }
      StartKeepsAsking(s, i, Tapped(s.screens[i], key), j);
    case Biometric(i, j) => StartKeepsAsking(s, i, (s.screens[i].(busy := true), Some(First)), j);
    case Fold(i, j) =>
      if i == GATE { GateStays(s.screens[GATE], Submit); }
      StartKeepsAsking(s, i, FoldedIn(s.screens[i]), j);
  }

  lemma AskingStep(s: State, a: Action)
    requires Asks(s) && Enabled(s, a) && Orderly(s, a)
    ensures Asks(Next(s, a))
  {
    GuardedStep(s, a);
    AwaitedStep(s, a);
    if a.Tap? || a.Biometric? || a.Fold? {
      AskingAfterScreen(s, a);
    } else if IsWork(a) {
      WorkMoves(s, a);
      if s.jobs[a.j].screen == GATE { GateWorkStays(s, a); }
      MovingKeepsAsking(s, a, Next(s, a));
    }
  }

  lemma {:induction false} AsksOverRuns(s: State, acts: seq<Action>)
    requires Asks(s) && Runs(s, acts) && OrderlyRun(s, acts)
    ensures Asks(Last(s, acts))
    decreases |acts|
  {
    if acts != [] {
      AskingStep(s, acts[0]);
      AsksOverRuns(Next(s, acts[0]), acts[1..]);
    }
  }

  // ----- one opening for one first factor -----

  ghost predicate GateJob(s: State, j: nat, w: Work) {
    j in s.jobs && s.jobs[j].screen == GATE && s.jobs[j].work == w
  }

  const OPENED := Outcome(true, false)

  /** The gate's first factor has been used up: the answer to an opening is on its way, or a new run has begun. */
  ghost predicate Spent(s: State) {
    GATE in s.screens ==>
      || (GATE, s.screens[GATE].run) !in s.passed
      || s.screens[GATE].pending == Some(OPENED)
      || exists j :: GateJob(s, j, Answer(OPENED))
  }

  /** A first factor is right on the gate. */
  ghost predicate Earns(s: State, a: Action) {
    a.AnswerFirst? && a.ok && a.j in s.jobs && s.jobs[a.j].screen == GATE
  }

  lemma SpentCannotOpen(s: State, a: Action)
    requires Guarded(s) && Spent(s) && Enabled(s, a) && Orderly(s, a) && s.locked
    ensures Next(s, a).locked
  {
    OpeningIsExcluded(s, a);
  }

  lemma StartKeepsSpent(s: State, i: nat, r: (Screen, Option<Work>), j: nat)
    requires Asks(s) && Spent(s) && i in s.screens && j !in s.jobs
    requires i == GATE ==>
      || (r.0.run == s.screens[GATE].run && r.0.pending == s.screens[GATE].pending)
      || (GATE, r.0.run) !in s.passed
    ensures Spent(Started(s, i, r, j))
  {
    var t := Started(s, i, r, j);
    if k :| GateJob(s, k, Answer(OPENED)) { assert GateJob(t, k, Answer(OPENED)); }
  }

  lemma FoldKeepsSpent(s: State, i: nat, j: nat)
    requires Asks(s) && Ordered(s) && Spent(s) && Enabled(s, Fold(i, j))
    ensures Spent(Next(s, Fold(i, j)))
  {
    var p := s.screens[GATE];
    assert GoodState(GATE, p, s.passed);
    assert !NoLater((GATE, p.run + 1), s.screens);
    if i == GATE && p.pending.Some? && p.pending.value != OPENED {
      if k :| GateJob(s, k, Answer(OPENED)) { assert GoodJob(s.jobs[k], p, s.passed); }
    }
    StartKeepsSpent(s, i, FoldedIn(s.screens[i]), j);
  }

  lemma DeliverKeepsSpent(s: State, j: nat)
    requires Asks(s) && Spent(s) && Enabled(s, Deliver(j))
    ensures Spent(Next(s, Deliver(j)))
  {
    var t := Next(s, Deliver(j));
    if s.jobs[j].screen == GATE { assert GoodJob(s.jobs[j], s.screens[GATE], s.passed); }
    if k :| GateJob(s, k, Answer(OPENED)) {
      if k != j { assert GateJob(t, k, Answer(OPENED)); }
    }
  }

  lemma MovingKeepsSpent(s: State, a: Action, t: State)
    requires Spent(s) && IsWork(a) && Moves(s, a, t) && !Earns(s, a)
    ensures Spent(t)
  {
    if k :| GateJob(s, k, Answer(OPENED)) { assert GateJob(t, k, Answer(OPENED)); }
  }

  lemma OtherKeepsSpent(s: State, t: State)
    requires Spent(s) && t.jobs == s.jobs && t.passed == s.passed && t.screens.Keys == s.screens.Keys
    requires GATE in s.screens ==> t.screens[GATE] == s.screens[GATE]
    ensures Spent(t)
  {
    if k :| GateJob(s, k, Answer(OPENED)) { assert GateJob(t, k, Answer(OPENED)); }
  }

  lemma SpentStep(s: State, a: Action)
    requires Asks(s) && Ordered(s) && Spent(s) && Enabled(s, a) && Orderly(s, a) && !Earns(s, a)
    ensures Spent(Next(s, a))
  {
    if a.Tap? {
      TapEarns(s.screens[a.i], a.key);
      StartKeepsSpent(s, a.i, Tapped(s.screens[a.i], a.key), a.j);
    } else if a.Biometric? {
      StartKeepsSpent(s, a.i, (s.screens[a.i].(busy := true), Some(First)), a.j);
    } else if a.Fold? {
      FoldKeepsSpent(s, a.i, a.j);
    } else if a.Deliver? {
      DeliverKeepsSpent(s, a.j);
    } else if IsWork(a) {
      WorkMoves(s, a);
      MovingKeepsSpent(s, a, Next(s, a));
    } else {
      OtherKeepsSpent(s, Next(s, a));
    }
  }

  /** The opening itself spends the first factor. */
  lemma OpeningSpends(s: State, a: Action)
    requires Asks(s) && Enabled(s, a) && Orderly(s, a) && s.locked && !Next(s, a).locked
    ensures Spent(Next(s, a))
  {
    OpeningIsExcluded(s, a);
    assert GoodJob(s.jobs[a.j], s.screens[s.jobs[a.j].screen], s.passed);
    assert GateJob(Next(s, a), a.j, Answer(OPENED));
  }

  ghost predicate NothingEarned(s: State, acts: seq<Action>)
    requires Runs(s, acts)
    decreases |acts|
  {
    acts == [] || (!Earns(s, acts[0]) && NothingEarned(Next(s, acts[0]), acts[1..]))
  }

  lemma {:induction false} SpentOverRuns(s: State, acts: seq<Action>)
    requires Asks(s) && Ordered(s) && Spent(s) && Runs(s, acts) && OrderlyRun(s, acts) && NothingEarned(s, acts)
    ensures Asks(Last(s, acts)) && Spent(Last(s, acts))
    decreases |acts|
  {
    if acts != [] {
      AskingStep(s, acts[0]);
      OrderedStep(s, acts[0]);
      SpentStep(s, acts[0]);
      SpentOverRuns(Next(s, acts[0]), acts[1..]);
    }
  }

  /** A state that the program, started with PIN and second factor set, comes to in an orderly run. */
  ghost predicate Reached(s: State) {
    exists settings, acts: seq<Action> :: Reaches(settings, acts, s)
  }

  ghost predicate Reaches(settings: nat, acts: seq<Action>, s: State) {
    && settings != GATE && Runs(Start(settings), acts) && OrderlyRun(Start(settings), acts)
    && Last(Start(settings), acts) == s
  }

  lemma ReachedAsks(s: State)
    requires Reached(s)
    ensures Asks(s) && Ordered(s)
  {
    var settings, acts: seq<Action> :| Reaches(settings, acts, s);
    StartsGuarded(settings);
    StartsOrdered(settings);
    AsksOverRuns(Start(settings), acts);
    OrderedOverRuns(Start(settings), acts);
  }

  /**
    A right first factor is good for one opening: once the app has opened it stays shut, however often it is locked and
    whatever codes are right, until a first factor is right on the gate again.
   */
  lemma OneOpeningPerFirstFactor(s: State, a: Action, acts: seq<Action>, b: Action)
    requires Reached(s) && Enabled(s, a) && Orderly(s, a) && s.locked && !Next(s, a).locked
    requires var t := Next(s, a); Runs(t, acts) && OrderlyRun(t, acts) && NothingEarned(t, acts)
    requires var u := Last(Next(s, a), acts); Enabled(u, b) && Orderly(u, b) && u.locked
    ensures Next(Last(Next(s, a), acts), b).locked
  {
    ReachedAsks(s);
    OpeningSpends(s, a);
    AskingStep(s, a);
    OrderedStep(s, a);
    SpentOverRuns(Next(s, a), acts);
    SpentCannotOpen(Last(Next(s, a), acts), b);
  }

  // ----- a way in from everywhere -----

  ghost predicate OpensBy(s: State, acts: seq<Action>) {
    Runs(s, acts) && OrderlyRun(s, acts) && !Last(s, acts).locked
  }

  ghost predicate CanOpen(s: State) {
    exists acts: seq<Action> :: OpensBy(s, acts)
  }

  lemma Then(s: State, a: Action)
    requires Enabled(s, a) && Orderly(s, a) && CanOpen(Next(s, a))
    ensures CanOpen(s)
  {
    var rest :| OpensBy(Next(s, a), rest);
    var acts := [a] + rest;
    assert acts[1..] == rest;
    assert OpensBy(s, acts);
  }

  lemma Opened(s: State)
    requires !s.locked
    ensures CanOpen(s)
  {
    assert OpensBy(s, []);
  }

  lemma SecondOpens(s: State, j: nat)
    requires Asks(s) && GateJob(s, j, Second(true))
    ensures CanOpen(s)
  {
    Opened(Next(s, AnswerSecond(j, true)));
    Then(s, AnswerSecond(j, true));
  }

  /** A code of four to six digits is submitted; any digits will do until then. */
  lemma {:induction false} CodeOpens(s: State)
    requires Asks(s) && s.screens[GATE].stage == Totp && !s.screens[GATE].busy
    ensures CanOpen(s)
    decreases 4 - |s.screens[GATE].pin|
  {
    var j := Numbers.Unused(s.jobs.Keys);
    assert GoodState(GATE, s.screens[GATE], s.passed);
    if |s.screens[GATE].pin| >= 4 {
      AskingStep(s, Tap(GATE, Submit, j));
      SecondOpens(Next(s, Tap(GATE, Submit, j)), j);
      Then(s, Tap(GATE, Submit, j));
    } else {
      AskingStep(s, Tap(GATE, Digit('0'), j));
      CodeOpens(Next(s, Tap(GATE, Digit('0'), j)));
      Then(s, Tap(GATE, Digit('0'), j));
    }
  }

  lemma FoldedOpens(s: State)
    requires Asks(s) && s.screens[GATE].pending == Some(Outcome(true, true))
    ensures CanOpen(s)
  {
    var j := Numbers.Unused(s.jobs.Keys);
    AskingStep(s, Fold(GATE, j));
    CodeOpens(Next(s, Fold(GATE, j)));
    Then(s, Fold(GATE, j));
  }

  lemma PassedOpens(s: State, j: nat)
    requires Asks(s) && (GateJob(s, j, FirstPassed) || GateJob(s, j, Answer(Outcome(true, true))))
    ensures CanOpen(s)
  {
    if GateJob(s, j, FirstPassed) {
      var t := Next(s, LookUpTotp(j, true));
      AskingStep(s, LookUpTotp(j, true));
      AskingStep(t, Deliver(j));
      FoldedOpens(Next(t, Deliver(j)));
      Then(t, Deliver(j));
      Then(s, LookUpTotp(j, true));
    } else {
      AskingStep(s, Deliver(j));
      FoldedOpens(Next(s, Deliver(j)));
      Then(s, Deliver(j));
    }
  }

  lemma FirstOpens(s: State, j: nat)
    requires Asks(s) && GateJob(s, j, First)
    ensures CanOpen(s)
  {
    AskingStep(s, AnswerFirst(j, true));
    PassedOpens(Next(s, AnswerFirst(j, true)), j);
    Then(s, AnswerFirst(j, true));
  }

  lemma {:induction false} PinOpens(s: State)
    requires Asks(s) && s.screens[GATE].stage == Current && !s.screens[GATE].busy
    ensures CanOpen(s)
    decreases 4 - |s.screens[GATE].pin|
  {
    var j := Numbers.Unused(s.jobs.Keys);
    if |s.screens[GATE].pin| >= 4 {
      AskingStep(s, Tap(GATE, Submit, j));
      FirstOpens(Next(s, Tap(GATE, Submit, j)), j);
      Then(s, Tap(GATE, Submit, j));
    } else {
      AskingStep(s, Tap(GATE, Digit('0'), j));
      PinOpens(Next(s, Tap(GATE, Digit('0'), j)));
      Then(s, Tap(GATE, Digit('0'), j));
    }
  }

  lemma IdleOpens(s: State)
    requires Asks(s) && !s.screens[GATE].busy
    ensures CanOpen(s)
  {
    if s.screens[GATE].stage == Totp { CodeOpens(s); } else { PinOpens(s); }
  }

  lemma PendingOpens(s: State)
    requires Asks(s) && s.screens[GATE].pending.Some?
    ensures CanOpen(s)
  {
    var j := Numbers.Unused(s.jobs.Keys);
    assert GoodState(GATE, s.screens[GATE], s.passed);
    AnswerFreesPad(s.screens[GATE]);
    AskingStep(s, Fold(GATE, j));
    IdleOpens(Next(s, Fold(GATE, j)));
    Then(s, Fold(GATE, j));
  }

  lemma JobOpens(s: State, j: nat)
    requires Asks(s) && j in s.jobs && s.jobs[j].screen == GATE
    ensures CanOpen(s)
  {
    assert GateWork(s.jobs[j].work);
    match s.jobs[j].work
    case First => FirstOpens(s, j);
    case FirstPassed => PassedOpens(s, j);
    case Second(_) => SecondOpens(s, j);
    case Answer(_) =>
      AskingStep(s, Deliver(j));
      PendingOpens(Next(s, Deliver(j)));
      Then(s, Deliver(j));
  }

  /**
    From every state an orderly run of the program reaches, whatever is under way, right answers open the app: nobody
    who has the PIN and the second factor is locked out.
   */
  lemma RightAnswersOpen(s: State)
    requires Reached(s)
    ensures CanOpen(s)
  {
    ReachedAsks(s);
    if !s.screens[GATE].busy {
      IdleOpens(s);
    } else if s.screens[GATE].pending.Some? {
      PendingOpens(s);
    } else {
      var j :| j in s.jobs && s.jobs[j].screen == GATE;
      JobOpens(s, j);
    }
  }
}
