/**
  The app-lock gate: the locked flag and its snapshot copy, the PIN screens, and the verifications they start on
  other goroutines, in any interleaving.
 */
module Gate {
  import AppLock

  datatype Option<T> = None | Some(value: T)

  datatype Intent = Unlock | Enroll | Change | Disable | DisableDone

  datatype Stage = Current | New | Confirm | Totp

  datatype Outcome = Outcome(ok: bool, totpNext: bool)

  datatype Key = Digit(c: char) | Backspace | Submit

  /** `run` counts the runs of the screen, one per Begin. */
  datatype Screen = Screen(intent: Intent, stage: Stage, pin: string, newPin: string, busy: bool,
                           pending: Option<Outcome>, run: nat)

  datatype Work =
    | First                     // PIN or biometric not yet answered
    | FirstPassed               // first factor right, second factor not yet looked up
    | Opening                   // no second factor enrolled: about to unlock
    | Second(unlockOn: bool)    // TOTP code not yet answered
    | Setting(pin: string)      // SetPIN
    | Removing                  // RemovePIN: second factor not yet removed
    | RemovingPin               // RemovePIN: verifier not yet removed
    | Answer(o: Outcome)        // about to deliver

  datatype Job = Job(screen: nat, run: nat, work: Work)

  datatype State = State(
    locked: bool, snapLocked: bool, pinSet: bool, snapEnabled: bool,
    read: bool,                 // whether a PIN was set when the reload in progress looked
    totp: bool,
    screens: map<nat, Screen>, jobs: map<nat, Job>,
    passed: set<(nat, nat)>,    // (screen, run) in which a first factor was right
    cleared: set<(nat, nat)>)   // (screen, run) in which a code was right or the lookup found none to ask for

  datatype Action =
    | Tap(i: nat, key: Key, j: nat)
    | Biometric(i: nat, j: nat)
    | Fold(i: nat, j: nat)
    | Begin(i: nat, intent: Intent)
    | AnswerFirst(j: nat, ok: bool)
    | LookUpTotp(j: nat, readable: bool)  // whether the keystore could be read
    | Open(j: nat)
    | AnswerSecond(j: nat, ok: bool)
    | FinishSet(j: nat, ok: bool)
    | RemoveSecond(j: nat, done: bool)
    | FinishRemove(j: nat, ok: bool)
    | Deliver(j: nat)
    | LockNow
    | Load                      // a reload reads the preferences
    | Commit                    // a reload swaps in a new snapshot
    | EnrollTotp
    | RemoveTotp

  /** The screen that covers a locked app; every other one belongs to the settings. */
  const GATE: nat := 0

  // ----- the screen -----

  function Begun(s: Screen, intent: Intent): Screen {
    Screen(intent, if intent == Enroll then New else Current, "", "", false, None, s.run + 1)
  }

  /** The screen after submitting its PIN, and the work this starts. */
  function Submitted(s: Screen): (Screen, Option<Work>) {
    match s.stage
    case New => (s.(newPin := s.pin, pin := "", stage := Confirm), None)
    case Confirm =>
      if s.pin != s.newPin then (s.(pin := "", stage := New), None)
      else (s.(busy := true), Some(Setting(s.pin)))
    case Totp => (s.(busy := true), Some(Second(s.intent == Unlock)))
    case Current => (s.(busy := true), Some(First))
  }

  function Tapped(s: Screen, key: Key): (Screen, Option<Work>) {
    var limit := if s.stage == Totp then 6 else 12;
    match key
    case Digit(c) =>
      if |s.pin| < limit then
        var t := s.(pin := s.pin + [c]);
        if t.stage == Totp && |t.pin| == 6 && !t.busy then Submitted(t) else (t, None)
      else (s, None)
    case Backspace => (if |s.pin| > 0 then s.(pin := s.pin[..|s.pin| - 1]) else s, None)
    case Submit => if |s.pin| >= 4 && !s.busy then Submitted(s) else (s, None)
  }

  /** Folds the queued outcome into the stage machine. */
  function FoldedIn(s: Screen): (Screen, Option<Work>) {
    if s.pending.None? then (s, None)
    else
      var o := s.pending.value;
      var t := s.(pending := None, busy := false, pin := "");
      if !o.ok then (t, None)
      else if o.totpNext then (t.(stage := Totp), None)
      else if t.stage == Confirm then (t, None)
      else if t.intent == Change then (t.(stage := New), None)
      else if t.intent == Disable then (t.(busy := true, intent := DisableDone), Some(Removing))
      else if t.intent == DisableDone then (t, None)
      else (Begun(t, Unlock), None)
  }

  // ----- the machine -----

  ghost predicate Runs1(s: State, j: nat, w: Work) {
    j in s.jobs && s.jobs[j].work == w && s.jobs[j].screen in s.screens
  }

  ghost predicate Enabled(s: State, a: Action) {
    match a
    case Tap(i, key, j) => i in s.screens && j !in s.jobs && (key.Digit? ==> AppLock.IsDigit(key.c))
    case Biometric(i, j) =>
      && i in s.screens && j !in s.jobs
      && !s.screens[i].busy && s.screens[i].intent == Unlock && s.screens[i].stage == Current
    case Fold(i, j) => i in s.screens && j !in s.jobs
    // Only the settings' screen is armed from outside: to enroll while no PIN shows as set, else to change or disable.
    case Begin(i, intent) =>
      i in s.screens && i != GATE && (if s.snapEnabled then intent in {Change, Disable} else intent == Enroll)
    case AnswerFirst(j, _) => Runs1(s, j, First)
    case LookUpTotp(j, _) => Runs1(s, j, FirstPassed)
    case Open(j) => Runs1(s, j, Opening)
    case AnswerSecond(j, _) => j in s.jobs && s.jobs[j].screen in s.screens && s.jobs[j].work.Second?
    case FinishSet(j, _) => j in s.jobs && s.jobs[j].screen in s.screens && s.jobs[j].work.Setting?
    case RemoveSecond(j, _) => Runs1(s, j, Removing)
    case FinishRemove(j, _) => Runs1(s, j, RemovingPin)
    case Deliver(j) => j in s.jobs && s.jobs[j].screen in s.screens && s.jobs[j].work.Answer?
    case _ => true
  }

  ghost function Started(s: State, i: nat, r: (Screen, Option<Work>), j: nat): State {
    s.(screens := s.screens[i := r.0],
       jobs := if r.1.Some? then s.jobs[j := Job(i, r.0.run, r.1.value)] else s.jobs)
  }

  ghost function Work1(s: State, j: nat, w: Work): State
    requires j in s.jobs
  {
    s.(jobs := s.jobs[j := s.jobs[j].(work := w)])
  }

  ghost function Cleared(s: State, j: nat): State
    requires j in s.jobs
  {
    s.(cleared := s.cleared + {(s.jobs[j].screen, s.jobs[j].run)})
  }

  ghost function Unlocked(s: State): State {
    s.(locked := false, snapLocked := false)
  }

  ghost function Next(s: State, a: Action): State
    requires Enabled(s, a)
  {
    match a
    case Tap(i, key, j) => Started(s, i, Tapped(s.screens[i], key), j)
    case Biometric(i, j) => Started(s, i, (s.screens[i].(busy := true), Some(First)), j)
    case Fold(i, j) => Started(s, i, FoldedIn(s.screens[i]), j)
    case Begin(i, intent) => s.(screens := s.screens[i := Begun(s.screens[i], intent)])
    case AnswerFirst(j, ok) =>
      if ok then Work1(s, j, FirstPassed).(passed := s.passed + {(s.jobs[j].screen, s.jobs[j].run)})
      else Work1(s, j, Answer(Outcome(false, false)))
    // A second factor that cannot be read counts as none.
    case LookUpTotp(j, readable) =>
      if s.totp && readable then Work1(s, j, Answer(Outcome(true, true)))
      else Work1(Cleared(s, j), j, Opening)
    case Open(j) => Work1(Unlocked(s), j, Answer(Outcome(true, false)))
    case AnswerSecond(j, ok) =>
      var t := if ok then Cleared(s, j) else s;
      Work1(if ok && s.jobs[j].work.unlockOn then Unlocked(t) else t, j, Answer(Outcome(ok, false)))
    case FinishSet(j, ok) => Work1(s.(pinSet := s.pinSet || ok), j, Answer(Outcome(ok, false)))
    case RemoveSecond(j, done) => Work1(s.(totp := s.totp && !done), j, RemovingPin)
    case FinishRemove(j, ok) =>
      Work1(if ok then Unlocked(s).(pinSet := false) else s, j, Answer(Outcome(ok, false)))
    case Deliver(j) =>
      var i := s.jobs[j].screen;
      s.(screens := s.screens[i := s.screens[i].(pending := Some(s.jobs[j].work.o))], jobs := s.jobs - {j})
    case LockNow => if s.snapEnabled then s.(locked := true, snapLocked := true) else s
    case Load => s.(read := s.pinSet)
    case Commit => s.(snapLocked := s.locked, snapEnabled := s.read)
    case EnrollTotp => s.(totp := true)
    case RemoveTotp => s.(totp := false)
  }

  ghost predicate Runs(s: State, acts: seq<Action>)
    decreases |acts|
  {
    acts == [] || (Enabled(s, acts[0]) && Runs(Next(s, acts[0]), acts[1..]))
  }

  ghost function Last(s: State, acts: seq<Action>): State
    requires Runs(s, acts)
    decreases |acts|
  {
    if acts == [] then s else Last(Next(s, acts[0]), acts[1..])
  }

  // ----- what holds over every run -----

  ghost predicate GoodScreen(s: Screen) {
    && |s.pin| <= 12 && (forall k :: 0 <= k < |s.pin| ==> AppLock.IsDigit(s.pin[k]))
    && (s.stage == Confirm ==> AppLock.IsPin(s.newPin))
  }

  ghost predicate Always(s: State) {
    && s.snapLocked == s.locked
    && (forall i :: i in s.screens ==> GoodScreen(s.screens[i]))
    && (forall j :: j in s.jobs && s.jobs[j].work.Setting? ==> AppLock.IsPin(s.jobs[j].work.pin))
  }

  lemma TapKeepsGood(s: Screen, key: Key)
    requires GoodScreen(s) && (key.Digit? ==> AppLock.IsDigit(key.c))
    ensures var r := Tapped(s, key);
      GoodScreen(r.0) && (r.1.Some? && r.1.value.Setting? ==> AppLock.IsPin(r.1.value.pin))
  {
  }

  lemma StartKeepsAlways(s: State, i: nat, r: (Screen, Option<Work>), j: nat)
    requires Always(s) && GoodScreen(r.0) && (r.1.Some? && r.1.value.Setting? ==> AppLock.IsPin(r.1.value.pin))
    ensures Always(Started(s, i, r, j))
  {
  }

  /** A job moves on, and with it perhaps the flags. */
  lemma WorkKeepsAlways(s: State, j: nat, w: Work, t: State)
    requires Always(s) && j in s.jobs && !w.Setting?
    requires t.screens == s.screens && t.jobs == Work1(s, j, w).jobs && t.snapLocked == t.locked
    ensures Always(t)
  {
  }

  lemma ScreenKeepsAlways(s: State, i: nat, p: Screen, t: State)
    requires Always(s) && GoodScreen(p)
    requires t.screens == s.screens[i := p] && t.jobs.Keys <= s.jobs.Keys && t.snapLocked == t.locked
    requires forall j :: j in t.jobs ==> t.jobs[j] == s.jobs[j]
    ensures Always(t)
  {
  }

  lemma FlagsKeepAlways(s: State, t: State)
    requires Always(s) && t.screens == s.screens && t.jobs == s.jobs && t.snapLocked == t.locked
    ensures Always(t)
  {
  }

  lemma AlwaysAfterScreen(s: State, a: Action)
    requires Always(s) && Enabled(s, a) && (a.Tap? || a.Biometric? || a.Fold? || a.Begin? || a.Deliver?)
    ensures Always(Next(s, a))
  {
    match a
    case Tap(i, key, j) =>
      TapKeepsGood(s.screens[i], key);
      StartKeepsAlways(s, i, Tapped(s.screens[i], key), j);
    case Biometric(i, j) => StartKeepsAlways(s, i, (s.screens[i].(busy := true), Some(First)), j);
    case Fold(i, j) => StartKeepsAlways(s, i, FoldedIn(s.screens[i]), j);
    case Begin(i, intent) => ScreenKeepsAlways(s, i, Begun(s.screens[i], intent), Next(s, a));
    case Deliver(j) =>
      var i := s.jobs[j].screen;
      ScreenKeepsAlways(s, i, s.screens[i].(pending := Some(s.jobs[j].work.o)), Next(s, a));
  }

  ghost predicate IsWork(a: Action) {
    || a.AnswerFirst? || a.LookUpTotp? || a.Open? || a.AnswerSecond? || a.FinishSet? || a.RemoveSecond?
    || a.FinishRemove?
  }

  lemma WorkMovesOneJob(s: State, a: Action) returns (w: Work)
    requires Enabled(s, a) && IsWork(a) && s.snapLocked == s.locked
    ensures var t := Next(s, a);
      a.j in s.jobs && t.screens == s.screens && t.jobs == s.jobs[a.j := s.jobs[a.j].(work := w)]
    ensures Next(s, a).snapLocked == Next(s, a).locked && !w.Setting?
  {
    match a
    case AnswerFirst(j, ok) => w := if ok then FirstPassed else Answer(Outcome(false, false));
    case LookUpTotp(j, readable) => w := if s.totp && readable then Answer(Outcome(true, true)) else Opening;
    case Open(j) => w := Answer(Outcome(true, false));
    case AnswerSecond(j, ok) => w := Answer(Outcome(ok, false));
    case FinishSet(j, ok) => w := Answer(Outcome(ok, false));
    case RemoveSecond(j, _) => w := RemovingPin;
    case FinishRemove(j, ok) => w := Answer(Outcome(ok, false));
  }

  lemma AlwaysAfterWork(s: State, a: Action)
    requires Always(s) && Enabled(s, a) && IsWork(a)
    ensures Always(Next(s, a))
  {
    var w := WorkMovesOneJob(s, a);
    WorkKeepsAlways(s, a.j, w, Next(s, a));
  }

  lemma AlwaysStep(s: State, a: Action)
    requires Always(s) && Enabled(s, a)
    ensures Always(Next(s, a))
  {
    if a.Tap? || a.Biometric? || a.Fold? || a.Begin? || a.Deliver? {
      AlwaysAfterScreen(s, a);
    } else if a.LockNow? || a.Load? || a.Commit? || a.EnrollTotp? || a.RemoveTotp? {
      FlagsKeepAlways(s, Next(s, a));
    } else {
      AlwaysAfterWork(s, a);
    }
  }

  /** Over every interleaving the snapshot's flag is the lock's, and every PIN handed to SetPIN is a valid one. */
  lemma {:induction false} SnapshotFollowsLock(s: State, acts: seq<Action>)
    requires Always(s) && Runs(s, acts)
    ensures Always(Last(s, acts))
    decreases |acts|
  {
    if acts != [] {
      AlwaysStep(s, acts[0]);
      SnapshotFollowsLock(Next(s, acts[0]), acts[1..]);
    }
  }

  // ----- the second factor -----

  /** Where an outcome must be of the current run: on the gate, and while enrolling. */
  predicate Exclusive(p: Screen) {
    p.intent == Unlock || p.intent == Enroll
  }

  predicate PastFirst(w: Work) {
    w.FirstPassed? || w.Second? || w == Answer(Outcome(true, true))
  }

  /**
    Only the gate unlocks, and where it has got past the first factor it did so in its current run.  A screen that
    enrolls waits for nothing but the new PIN's being stored.
   */
  ghost predicate GoodState(i: nat, p: Screen, passed: set<(nat, nat)>) {
    && (p.intent == Unlock <==> i == GATE)
    && (i == GATE && (p.stage == Totp || p.pending == Some(Outcome(true, true))) ==> (GATE, p.run) in passed)
    && (Exclusive(p) && p.pending.Some? ==> p.busy)
    && (p.intent == Enroll ==>
          && (p.stage == New || p.stage == Confirm)
          && (p.pending.Some? ==> p.stage == Confirm && !p.pending.value.totpNext))
  }

  /** The same of a job beside the screen it belongs to; none opens without the second factor or removes one. */
  ghost predicate GoodJob(job: Job, p: Screen, passed: set<(nat, nat)>) {
    && (Exclusive(p) ==> p.busy && p.pending.None? && job.run == p.run)
    && (job.screen == GATE && PastFirst(job.work) ==> (GATE, job.run) in passed)
    && (job.work == Second(true) ==> job.screen == GATE)
    && (p.intent == Enroll ==>
          p.stage == Confirm && (job.work.Setting? || (job.work.Answer? && !job.work.o.totpNext)))
    && !job.work.Opening? && !job.work.Removing? && !job.work.RemovingPin?
  }

  /** One job at most on the gate and while enrolling. */
  ghost predicate Alone(s: State) {
    forall j, k :: j in s.jobs && k in s.jobs && s.jobs[j].screen == s.jobs[k].screen ==>
      s.jobs[j].screen in s.screens && Exclusive(s.screens[s.jobs[j].screen]) ==> j == k
  }

  /** PIN and second factor are set, and every screen and job is good. */
  ghost predicate Guarded(s: State) {
    && s.totp && s.pinSet && s.snapEnabled && s.read && Alone(s)
    && (forall i :: i in s.screens ==> GoodState(i, s.screens[i], s.passed))
    && (forall j :: j in s.jobs ==>
          s.jobs[j].screen in s.screens && GoodJob(s.jobs[j], s.screens[s.jobs[j].screen], s.passed))
  }

  /** The action neither removes the second factor nor starts removing the lock, nor fails to read it. */
  ghost predicate Orderly(s: State, a: Action) {
    && Keeps(s, a)
    && (a.LookUpTotp? ==> a.readable)
  }

  /** The action neither removes the second factor nor starts removing the lock. */
  ghost predicate Keeps(s: State, a: Action) {
    match a
    case RemoveTotp => false
    case Fold(i, _) => i in s.screens && FoldedIn(s.screens[i]).1.None?
    case _ => true
  }

  ghost predicate OrderlyRun(s: State, acts: seq<Action>)
    requires Runs(s, acts)
    decreases |acts|
  {
    acts == [] || (Orderly(s, acts[0]) && OrderlyRun(Next(s, acts[0]), acts[1..]))
  }

  lemma TapEarns(s: Screen, key: Key)
    ensures var r := Tapped(s, key);
      && r.0.run == s.run && r.0.pending == s.pending && r.0.intent == s.intent
      && (r.0.stage == Totp <==> s.stage == Totp)
      && (s.busy ==> r.1.None? && r.0.busy && r.0.stage == s.stage)
      && (r.1.Some? ==> r.0.busy && r.0.stage == s.stage && StartedBy(s, r.1.value))
      && (r.1.None? ==> r.0.busy == s.busy && (s.stage in {New, Confirm} ==> r.0.stage in {New, Confirm}))
  {
  }

  /** The work a screen's stage starts. */
  ghost predicate StartedBy(s: Screen, w: Work) {
    match s.stage
    case New => false
    case Confirm => w.Setting?
    case Totp => w == Second(s.intent == Unlock)
    case Current => w == First
  }

  lemma ScreenKeepsGuarded(s: State, i: nat, p: Screen)
    requires Guarded(s) && i in s.screens && GoodState(i, p, s.passed)
    requires forall j :: j in s.jobs && s.jobs[j].screen == i ==> GoodJob(s.jobs[j], p, s.passed)
    requires Exclusive(p) ==> Exclusive(s.screens[i])
    ensures Guarded(s.(screens := s.screens[i := p]))
  {
  }

  lemma JobKeepsGuarded(s: State, j: nat, job: Job)
    requires Guarded(s) && job.screen in s.screens && GoodJob(job, s.screens[job.screen], s.passed)
    requires Exclusive(s.screens[job.screen]) ==> forall k :: k in s.jobs && s.jobs[k].screen == job.screen ==> k == j
    ensures Guarded(s.(jobs := s.jobs[j := job]))
  {
  }

  /** A screen with nothing outstanding starts one piece of work in its current run. */
  lemma StartKeepsGuarded(s: State, i: nat, r: (Screen, Option<Work>), j: nat)
    requires Guarded(s) && i in s.screens && j !in s.jobs
    requires r.0.run == s.screens[i].run && r.0.pending == s.screens[i].pending && r.0.intent == s.screens[i].intent
    requires r.0.stage == Totp <==> s.screens[i].stage == Totp
    requires s.screens[i].busy ==> r.1.None? && r.0.stage == s.screens[i].stage
    requires r.1.None? ==> r.0.busy == s.screens[i].busy
    requires r.1.None? && s.screens[i].stage in {New, Confirm} ==> r.0.stage in {New, Confirm}
    requires r.1.Some? ==> r.0.busy && r.0.stage == s.screens[i].stage && StartedBy(s.screens[i], r.1.value)
    ensures Guarded(Started(s, i, r, j))
  {
    var p := s.screens[i];
    assert GoodState(i, p, s.passed);
    forall k | k in s.jobs && s.jobs[k].screen == i
      ensures GoodJob(s.jobs[k], r.0, s.passed)
    {
      assert GoodJob(s.jobs[k], p, s.passed);
    }
    ScreenKeepsGuarded(s, i, r.0);
    if r.1.Some? { JobKeepsGuarded(s.(screens := s.screens[i := r.0]), j, Job(i, r.0.run, r.1.value)); }
  }

  lemma FoldKeepsGuarded(s: State, i: nat, j: nat)
    requires Guarded(s) && i in s.screens && j !in s.jobs && FoldedIn(s.screens[i]).1.None?
    ensures Guarded(Next(s, Fold(i, j)))
  {
    var p, r := s.screens[i], FoldedIn(s.screens[i]);
    assert GoodState(i, p, s.passed);
    forall k | k in s.jobs && s.jobs[k].screen == i
      ensures GoodJob(s.jobs[k], r.0, s.passed)
    {
      assert GoodJob(s.jobs[k], p, s.passed);
    }
    ScreenKeepsGuarded(s, i, r.0);
  }

  lemma WorkKeepsGuarded(s: State, j: nat, w: Work)
    requires Guarded(s) && j in s.jobs && (w.FirstPassed? || w.Answer?)
    requires s.jobs[j].screen == GATE && PastFirst(w) ==> (GATE, s.jobs[j].run) in s.passed
    requires s.screens[s.jobs[j].screen].intent == Enroll ==> w.Answer? && !w.o.totpNext
    ensures Guarded(Work1(s, j, w))
  {
    assert GoodJob(s.jobs[j], s.screens[s.jobs[j].screen], s.passed);
    JobKeepsGuarded(s, j, s.jobs[j].(work := w));
  }

  lemma DeliverKeepsGuarded(s: State, j: nat)
    requires Guarded(s) && Enabled(s, Deliver(j))
    ensures Guarded(Next(s, Deliver(j)))
  {
    var i := s.jobs[j].screen;
    var p := s.screens[i];
    assert GoodState(i, p, s.passed) && GoodJob(s.jobs[j], p, s.passed);
    var t := s.(jobs := s.jobs - {j});
    assert Guarded(t);
    forall k | k in t.jobs && t.jobs[k].screen == i
      ensures GoodJob(t.jobs[k], p.(pending := Some(s.jobs[j].work.o)), s.passed)
    {
      assert GoodJob(s.jobs[k], p, s.passed) && (Exclusive(p) ==> k == j);
    }
    ScreenKeepsGuarded(t, i, p.(pending := Some(s.jobs[j].work.o)));
  }

  lemma PassingKeepsGuarded(s: State, j: nat, ok: bool)
    requires Guarded(s) && Enabled(s, AnswerFirst(j, ok))
    ensures Guarded(Next(s, AnswerFirst(j, ok)))
  {
    var p := s.(passed := if ok then s.passed + {(s.jobs[j].screen, s.jobs[j].run)} else s.passed);
    assert Guarded(p);
    assert GoodJob(s.jobs[j], s.screens[s.jobs[j].screen], s.passed);
    WorkKeepsGuarded(p, j, if ok then FirstPassed else Answer(Outcome(false, false)));
  }

  /** Arming a screen of the settings anew, whatever it still waits for. */
  lemma BeginKeepsGuarded(s: State, i: nat, intent: Intent)
    requires Guarded(s) && Enabled(s, Begin(i, intent))
    ensures Guarded(Next(s, Begin(i, intent)))
  {
    var p := s.screens[i];
    forall k | k in s.jobs && s.jobs[k].screen == i
      ensures GoodJob(s.jobs[k], Begun(p, intent), s.passed)
    {
      assert GoodJob(s.jobs[k], p, s.passed);
    }
    ScreenKeepsGuarded(s, i, Begun(p, intent));
  }

  lemma LookingKeepsGuarded(s: State, j: nat)
    requires Guarded(s) && Enabled(s, LookUpTotp(j, true))
    ensures Guarded(Next(s, LookUpTotp(j, true)))
  {
    assert GoodJob(s.jobs[j], s.screens[s.jobs[j].screen], s.passed);
    WorkKeepsGuarded(s, j, Answer(Outcome(true, true)));
  }

  /** The guard leaves nothing to the jobs that open without a second factor or remove one. */
  lemma OpeningIsExcluded(s: State, a: Action)
    requires Guarded(s) && Enabled(s, a)
    ensures !a.Open? && !a.RemoveSecond? && !a.FinishRemove?
  {
  }

  lemma GuardedStep(s: State, a: Action)
    requires Guarded(s) && Enabled(s, a) && Orderly(s, a)
    ensures Guarded(Next(s, a))
  {
    match a
    case Tap(i, key, j) =>
      TapEarns(s.screens[i], key);
      StartKeepsGuarded(s, i, Tapped(s.screens[i], key), j);
    case Biometric(i, j) => StartKeepsGuarded(s, i, (s.screens[i].(busy := true), Some(First)), j);
    case Fold(i, j) => FoldKeepsGuarded(s, i, j);
    case Begin(i, intent) => BeginKeepsGuarded(s, i, intent);
    case AnswerFirst(j, ok) => PassingKeepsGuarded(s, j, ok);
    case LookUpTotp(j, _) => LookingKeepsGuarded(s, j);
    case Open(j) => OpeningIsExcluded(s, a);
    case AnswerSecond(j, ok) =>
      WorkKeepsGuarded(if ok then Cleared(s, j) else s, j, Answer(Outcome(ok, false)));
    case FinishSet(j, ok) => WorkKeepsGuarded(s, j, Answer(Outcome(ok, false)));
    case RemoveSecond(j, _) => OpeningIsExcluded(s, a);
    case FinishRemove(j, ok) => OpeningIsExcluded(s, a);
    case Deliver(j) => DeliverKeepsGuarded(s, j);
    case LockNow =>
    case Load =>
    case Commit =>
    case EnrollTotp =>
  }

  lemma {:induction false} GuardedOverRuns(s: State, acts: seq<Action>)
    requires Guarded(s) && Runs(s, acts) && OrderlyRun(s, acts)
    ensures Guarded(Last(s, acts))
    decreases |acts|
  {
    if acts != [] {
      GuardedStep(s, acts[0]);
      GuardedOverRuns(Next(s, acts[0]), acts[1..]);
    }
  }

  /**
    While PIN and second factor stay set and no removal is in flight, the app opens only by a TOTP success on the
    gate, in a run of the gate in which a first factor had already been right; whatever the settings' screen waits
    for while it is armed anew.
   */
  lemma OpensOnlyAfterBothFactors(s: State, acts: seq<Action>, a: Action)
    requires Guarded(s) && Runs(s, acts) && OrderlyRun(s, acts)
    requires var t := Last(s, acts); Enabled(t, a) && Orderly(t, a) && t.locked && !Next(t, a).locked
    ensures a.AnswerSecond? && a.ok
    ensures var t := Last(s, acts); var job := t.jobs[a.j];
      job.screen == GATE && job.run == t.screens[GATE].run && (GATE, job.run) in t.passed
  {
    GuardedOverRuns(s, acts);
  }

  // ----- a second factor that cannot be read -----

  ghost predicate Opens(s: State, a: Action) {
    Enabled(s, a) && Keeps(s, a) && s.locked && !Next(s, a).locked
  }

  /** While nothing removes the second factor or fails to read it, the app opens from here by a right code alone. */
  ghost predicate StaysShut(s: State) {
    forall acts: seq<Action>, a :: !OpensOtherwise(s, acts, a)
  }

  ghost predicate OpensOtherwise(s: State, acts: seq<Action>, a: Action) {
    Runs(s, acts) && OrderlyRun(s, acts) && Opens(Last(s, acts), a) && !(a.AnswerSecond? && a.ok)
  }

  lemma GuardedStaysShut(s: State)
    requires Guarded(s)
    ensures StaysShut(s)
  {
    forall acts: seq<Action>, a ensures !OpensOtherwise(s, acts, a) {
      if Runs(s, acts) {
        if OrderlyRun(s, acts) {
          GuardedOverRuns(s, acts);
          OpensByCode(Last(s, acts), a);
        }
      }
    }
  }

  lemma OpensByCode(s: State, a: Action)
    requires Guarded(s)
    ensures Opens(s, a) ==> a.AnswerSecond? && a.ok
  {
    if Enabled(s, a) { OpeningIsExcluded(s, a); }
  }

  /** A guarded app stays shut over every action but one: a lookup of the second factor that fails. */
  lemma StaysShutIff(s: State, a: Action)
    requires Guarded(s) && Enabled(s, a) && Keeps(s, a)
    ensures StaysShut(Next(s, a)) <==> !FailedLookup(a)
  {
    if FailedLookup(a) {
      FailedLookupOpens(s, a.j);
    } else {
      GuardedStep(s, a);
      GuardedStaysShut(Next(s, a));
    }
  }

  ghost predicate FailedLookup(a: Action) {
    a.LookUpTotp? && !a.readable
  }

  /** After the failed lookup the app may be locked once more; the job then opens it. */
  lemma FailedLookupOpens(s: State, j: nat)
    requires Guarded(s) && Enabled(s, LookUpTotp(j, false))
    ensures !StaysShut(Next(s, LookUpTotp(j, false)))
  {
    var t := Next(s, LookUpTotp(j, false));
    var acts := [LockNow];
    assert acts[1..] == [];
    assert Runs(t, acts) && OrderlyRun(t, acts) && Last(t, acts) == Next(t, LockNow);
    assert OpensOtherwise(t, acts, Open(j));
  }

  ghost predicate KeepingRun(s: State, acts: seq<Action>)
    requires Runs(s, acts)
    decreases |acts|
  {
    acts == [] || (Keeps(s, acts[0]) && KeepingRun(Next(s, acts[0]), acts[1..]))
  }

  /** Whenever the app opens otherwise than by a right code, a lookup of the second factor has failed before. */
  lemma OpensOtherwiseAfterFailedLookup(s: State, acts: seq<Action>, a: Action)
    requires Guarded(s) && Runs(s, acts) && KeepingRun(s, acts)
    requires Opens(Last(s, acts), a) && !(a.AnswerSecond? && a.ok)
    ensures exists k :: 0 <= k < |acts| && FailedLookup(acts[k])
  {
    if forall k :: 0 <= k < |acts| ==> !FailedLookup(acts[k]) {
      ReadableIsOrderly(s, acts);
      GuardedOverRuns(s, acts);
    }
  }

  lemma {:induction false} ReadableIsOrderly(s: State, acts: seq<Action>)
    requires Runs(s, acts) && KeepingRun(s, acts)
    requires forall k :: 0 <= k < |acts| ==> !FailedLookup(acts[k])
    ensures OrderlyRun(s, acts)
    decreases |acts|
  {
    if acts != [] { ReadableIsOrderly(Next(s, acts[0]), acts[1..]); }
  }

  /** The gate as the program starts it: one failed read after a right fingerprint opens it, second factor and all. */
  lemma FingerprintAloneOpens(settings: nat) returns (acts: seq<Action>)
    requires settings != GATE
    ensures acts == [Biometric(GATE, 0), AnswerFirst(0, true), LookUpTotp(0, false), Open(0)]
    ensures var s := Start(settings); s.locked && s.totp && Runs(s, acts) && KeepingRun(s, acts)
    ensures !Last(Start(settings), acts).locked && Last(Start(settings), acts).totp
  {
    var s := Start(settings);
    var s1 := Next(s, Biometric(GATE, 0));
    var s2 := Next(s1, AnswerFirst(0, true));
    var s3 := Next(s2, LookUpTotp(0, false));
    acts := [Open(0)];
    assert acts[1..] == [];
    assert Runs(s3, acts) && KeepingRun(s3, acts) && !Last(s3, acts).locked && Last(s3, acts).totp;
    acts := Preceded(s2, LookUpTotp(0, false), acts);
    acts := Preceded(s1, AnswerFirst(0, true), acts);
    acts := Preceded(s, Biometric(GATE, 0), acts);
  }

  lemma Preceded(s: State, a: Action, rest: seq<Action>) returns (acts: seq<Action>)
    requires Enabled(s, a) && Keeps(s, a) && Runs(Next(s, a), rest) && KeepingRun(Next(s, a), rest)
    ensures acts == [a] + rest && Runs(s, acts) && KeepingRun(s, acts) && Last(s, acts) == Last(Next(s, a), rest)
  {
    acts := [a] + rest;
    assert acts[1..] == rest;
  }

  /**
    The settings' screen does not keep what the gate keeps.  A right PIN is on its way when the user goes back and
    starts changing the PIN once more; its outcome carries the new run past the PIN it has not asked for.
   */
  lemma StaleOutcomeAdvancesSettings(pin: string) returns (s: State, acts: seq<Action>)
    requires |pin| == 4 && forall i :: 0 <= i < |pin| ==> AppLock.IsDigit(pin[i])
    ensures Guarded(s) && s.jobs == map[] && s.screens.Keys == {1} && s.screens[1].stage == Current
    ensures Runs(s, acts) && OrderlyRun(s, acts)
    ensures var t := Last(s, acts);
      && 1 in t.screens && t.screens[1].intent == Change && t.screens[1].stage == Totp
      && (1, t.screens[1].run) !in t.passed
  {
    var asking := Screen(Change, Current, pin, "", false, None, 1);
    var armed := Screen(Change, Current, "", "", false, None, 2);
    s := Lone(asking, map[], {});
    var s1 := Lone(asking.(busy := true), map[0 := Job(1, 1, First)], {});
    var s2 := Lone(asking.(busy := true), map[0 := Job(1, 1, FirstPassed)], {(1, 1)});
    var s3 := Lone(asking.(busy := true), map[0 := Job(1, 1, Answer(Outcome(true, true)))], {(1, 1)});
    var s4 := Lone(armed, map[0 := Job(1, 1, Answer(Outcome(true, true)))], {(1, 1)});
    var s5 := Lone(armed.(pending := Some(Outcome(true, true))), map[], {(1, 1)});
    var s6 := Lone(armed.(stage := Totp), map[], {(1, 1)});
    LoneIsGuarded(asking);
    StaleIsOnItsWay(pin, s, s1, s2, s3);
    StaleArrives(pin, s3, s4, s5, s6);
    acts := FoldedAfter(s3, s4, s5, s6);
    acts := AnsweredBefore(s, s1, s2, s3, acts);
  }

  lemma AnsweredBefore(s: State, s1: State, s2: State, s3: State, rest: seq<Action>) returns (acts: seq<Action>)
    requires Enabled(s, Tap(1, Submit, 0)) && Next(s, Tap(1, Submit, 0)) == s1
    requires Enabled(s1, AnswerFirst(0, true)) && Next(s1, AnswerFirst(0, true)) == s2
    requires Enabled(s2, LookUpTotp(0, true)) && Next(s2, LookUpTotp(0, true)) == s3
    requires Runs(s3, rest) && OrderlyRun(s3, rest)
    ensures Runs(s, acts) && OrderlyRun(s, acts) && Last(s, acts) == Last(s3, rest)
  {
    acts := Prepend(s2, LookUpTotp(0, true), s3, rest);
    acts := Prepend(s1, AnswerFirst(0, true), s2, acts);
    acts := Prepend(s, Tap(1, Submit, 0), s1, acts);
  }

  lemma FoldedAfter(s3: State, s4: State, s5: State, s6: State) returns (acts: seq<Action>)
    requires Enabled(s3, Begin(1, Change)) && Next(s3, Begin(1, Change)) == s4
    requires Enabled(s4, Deliver(0)) && Next(s4, Deliver(0)) == s5
    requires Enabled(s5, Fold(1, 1)) && Next(s5, Fold(1, 1)) == s6 && Orderly(s5, Fold(1, 1))
    ensures Runs(s3, acts) && OrderlyRun(s3, acts) && Last(s3, acts) == s6
  {
    acts := Prepend(s5, Fold(1, 1), s6, []);
    acts := Prepend(s4, Deliver(0), s5, acts);
    acts := Prepend(s3, Begin(1, Change), s4, acts);
  }

  lemma LoneIsGuarded(p: Screen)
    requires p.intent == Change && p.pending.None?
    ensures Guarded(Lone(p, map[], {}))
  {
  }

  /** The settings' screen alone. */
  ghost function Lone(p: Screen, jobs: map<nat, Job>, passed: set<(nat, nat)>): State {
    State(false, false, true, true, true, true, map[1 := p], jobs, passed, {})
  }

  lemma StaleIsOnItsWay(pin: string, s: State, s1: State, s2: State, s3: State)
    requires |pin| == 4
    requires var asking := Screen(Change, Current, pin, "", false, None, 1);
      && s == Lone(asking, map[], {})
      && s1 == Lone(asking.(busy := true), map[0 := Job(1, 1, First)], {})
      && s2 == Lone(asking.(busy := true), map[0 := Job(1, 1, FirstPassed)], {(1, 1)})
      && s3 == Lone(asking.(busy := true), map[0 := Job(1, 1, Answer(Outcome(true, true)))], {(1, 1)})
    ensures Enabled(s, Tap(1, Submit, 0)) && Next(s, Tap(1, Submit, 0)) == s1
    ensures Enabled(s1, AnswerFirst(0, true)) && Next(s1, AnswerFirst(0, true)) == s2
    ensures Enabled(s2, LookUpTotp(0, true)) && Next(s2, LookUpTotp(0, true)) == s3
  {
    assert Next(s, Tap(1, Submit, 0)).screens == s1.screens;
    assert Next(s1, AnswerFirst(0, true)).jobs == s2.jobs;
    assert Next(s2, LookUpTotp(0, true)).jobs == s3.jobs;
  }

  lemma StaleArrives(pin: string, s3: State, s4: State, s5: State, s6: State)
    requires var asking := Screen(Change, Current, pin, "", false, None, 1);
      var armed := Screen(Change, Current, "", "", false, None, 2);
      && s3 == Lone(asking.(busy := true), map[0 := Job(1, 1, Answer(Outcome(true, true)))], {(1, 1)})
      && s4 == Lone(armed, map[0 := Job(1, 1, Answer(Outcome(true, true)))], {(1, 1)})
      && s5 == Lone(armed.(pending := Some(Outcome(true, true))), map[], {(1, 1)})
      && s6 == Lone(armed.(stage := Totp), map[], {(1, 1)})
    ensures Enabled(s3, Begin(1, Change)) && Next(s3, Begin(1, Change)) == s4
    ensures Enabled(s4, Deliver(0)) && Next(s4, Deliver(0)) == s5
    ensures Enabled(s5, Fold(1, 1)) && Next(s5, Fold(1, 1)) == s6 && Orderly(s5, Fold(1, 1))
  {
    assert Next(s3, Begin(1, Change)).screens == s4.screens;
    assert Next(s4, Deliver(0)).screens == s5.screens && Next(s4, Deliver(0)).jobs == s5.jobs;
    assert Next(s5, Fold(1, 1)).screens == s6.screens;
  }

  lemma Prepend(s: State, a: Action, t: State, rest: seq<Action>) returns (acts: seq<Action>)
    requires Enabled(s, a) && Orderly(s, a) && Next(s, a) == t && Runs(t, rest) && OrderlyRun(t, rest)
    ensures Runs(s, acts) && OrderlyRun(s, acts) && Last(s, acts) == Last(t, rest)
  {
    acts := [a] + rest;
    assert acts[1..] == rest;
  }

  /** Gate and settings' screen as the program starts them with a PIN and a second factor set. */
  ghost function Start(settings: nat): State {
    var gate := Screen(Unlock, Current, "", "", false, None, 0);
    var setup := Screen(Enroll, New, "", "", false, None, 0);
    State(true, true, true, true, true, true, map[settings := setup][GATE := gate], map[], {}, {})
  }

  lemma StartsGuarded(settings: nat)
    requires settings != GATE
    ensures Guarded(Start(settings)) && Always(Start(settings))
  {
  }
}
