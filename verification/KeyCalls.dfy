/** What a call for the master key comes to: when it fails, which key it returns, and that it can always end. */
module KeyCalls {
  import opened MasterKey

  /** The call whose step the action is. */
  function CallOf(a: Action): Option<nat> {
    match a
    case Call(_, _, _) => None
    case Crash(_) => None
    case _ => Some(a.c)
  }

  predicate IsError(a: Action) {
    a.CloseError? || a.WriteError? || a.SyncError? || a.OtherError?
  }

  predicate Ended(step: Step) {
    step.Returned? || step.Failed?
  }

  ghost predicate Whole(file: Option<Bytes>) {
    file.Some? && |file.value| == KEY_LEN
  }

  // ----- links that are not refused -----

  ghost predicate NoRefusedLink(acts: seq<Action>) {
    forall i :: 0 <= i < |acts| ==> !acts[i].RefuseLink?
  }

  /** Nobody creates the file exclusively, so it is whole or absent; a loser of the race leaves it there. */
  ghost predicate Linked(s: State) {
    && (s.file.Some? ==> Whole(s.file))
    && (forall c :: c in s.callers ==>
          var step := s.callers[c].step;
          && !step.LinkRefused? && !HoldsLock(step)
          && (step.LinkLost? ==> s.file.Some?))
  }

  lemma LinkedStep(s: State, a: Action)
    requires Inv(s) && Linked(s) && Enabled(s, a) && !a.RefuseLink?
    ensures Inv(Next(s, a)) && Linked(Next(s, a)) && !a.SyncError?
  {
    if CallOf(a).Some? { assert !HoldsLock(s.callers[a.c].step); }
    InvStep(s, a);
  }

  lemma {:induction false} LinkedOverRuns(s: State, acts: seq<Action>)
    requires Inv(s) && Linked(s) && Runs(s, acts) && NoRefusedLink(acts)
    ensures Inv(Last(s, acts)) && Linked(Last(s, acts))
    decreases |acts|
  {
    if acts != [] {
      LinkedStep(s, acts[0]);
      assert forall i :: 0 <= i < |acts| - 1 ==> acts[1..][i] == acts[i + 1];
      LinkedOverRuns(Next(s, acts[0]), acts[1..]);
    }
  }

  /**
    Where links are not refused, whatever dies or fails elsewhere, the loser of the link race returns the winner's
    key, and so does every call that finds the file.
   */
  lemma LinkLoserAdopts(s: State, acts: seq<Action>, c: nat, a: Action)
    requires Initial(s) && Runs(s, acts) && NoRefusedLink(acts)
    requires Enabled(Last(s, acts), a)
    requires a == AdoptAfterLink(c) || (a == FirstRead(c) && Last(s, acts).file.Some?)
    ensures var t := Last(s, acts);
      t.file.Some? && Next(t, a).callers[c].step == Returned(t.file.value)
  {
    LinkedOverRuns(s, acts);
    var t := Last(s, acts);
    if a == FirstRead(c) {
      var at := (t.callers[c].process, t.callers[c].provider);
      if at in t.caches { assert t.caches[at] in t.issued; }
    }
  }

  /** And no call fails but by an error of its own. */
  lemma LinkedCallsFailByErrorOnly(s: State, acts: seq<Action>, a: Action)
    requires Initial(s) && Runs(s, acts) && NoRefusedLink(acts)
    requires var t := Last(s, acts); Enabled(t, a) && CallOf(a).Some?
    ensures Next(Last(s, acts), a).callers[a.c].step == Failed <==> IsError(a)
  {
    LinkedOverRuns(s, acts);
    var t := Last(s, acts);
    assert !HoldsLock(t.callers[a.c].step);
  }

  // ----- links that may be refused -----

  /**
    With exclusive creates about, the loser of a link race fails exactly if the file is gone again or, in a single
    process, some call has created it and not yet written it whole.
   */
  lemma LinkLoserFailsIff(s: State, acts: seq<Action>, c: nat)
    requires Initial(s) && Runs(s, acts) && SyncErrorFree(acts) && OneProcess(s, acts)
    requires Enabled(Last(s, acts), AdoptAfterLink(c))
    ensures var t := Last(s, acts);
      (Next(t, AdoptAfterLink(c)).callers[c].step == Failed)
        <==> (t.file.None? || exists d :: d in t.callers && WritesShort(t.callers[d].step))
    ensures var t := Last(s, acts); var step := Next(t, AdoptAfterLink(c)).callers[c].step;
      step != Failed ==> t.file.Some? && step == Returned(t.file.value)
  {
    LockedOverRuns(s, acts);
    var t := Last(s, acts);
    if d :| d in t.callers && WritesShort(t.callers[d].step) {
      assert t.file == Some(t.callers[d].step.key[..t.callers[d].step.n]);
    }
  }

  /** A call that created the file, wrote it whole and closes it returns what the file holds. */
  lemma CreatorReturnsItsKey(s: State, acts: seq<Action>, c: nat)
    requires Initial(s) && Runs(s, acts) && SyncErrorFree(acts) && Enabled(Last(s, acts), Close(c))
    ensures var t := Last(s, acts);
      t.file.Some? && Next(t, Close(c)).callers[c].step == Returned(t.file.value)
  {
    InvOverRuns(s, acts);
    CompleteFile(Last(s, acts), c);
  }

  // ----- where keys come from -----

  ghost predicate Drawn(acts: seq<Action>, key: Bytes) {
    exists i :: 0 <= i < |acts| && acts[i].Generate? && acts[i].key == key
  }

  /** Every key about was drawn by some call. */
  ghost predicate AllDrawn(s: State, acts: seq<Action>) {
    && (forall k :: k in s.issued ==> Drawn(acts, k))
    && (Whole(s.file) ==> Drawn(acts, s.file.value))
    && (forall c :: c in s.callers ==> StepDrawn(s.callers[c].step, acts))
  }

  ghost predicate StepDrawn(step: Step, acts: seq<Action>) {
    step.Prepared? || step.LinkRefused? || step.Publishing? || step.Writing? ==> Drawn(acts, step.key)
  }

  lemma AllDrawnStays(s: State, acts: seq<Action>, a: Action)
    requires AllDrawn(s, acts)
    ensures AllDrawn(s, acts + [a])
  {
    forall k | Drawn(acts, k)
      ensures Drawn(acts + [a], k)
    {
      var i :| 0 <= i < |acts| && acts[i].Generate? && acts[i].key == k;
      assert (acts + [a])[i] == acts[i];
    }
  }

  lemma MoveKeepsDrawn(s: State, acts: seq<Action>, c: nat, step: Step, file: Option<Bytes>)
    requires AllDrawn(s, acts) && c in s.callers && StepDrawn(step, acts)
    requires Whole(file) ==> Drawn(acts, file.value)
    ensures AllDrawn(Move(s, c, step).(file := file), acts)
  {
  }

  lemma ReturnKeepsDrawn(s: State, acts: seq<Action>, c: nat, k: Bytes)
    requires AllDrawn(s, acts) && c in s.callers && Drawn(acts, k)
    ensures AllDrawn(Return(s, c, k), acts) && AllDrawn(Return(s, c, k).(file := Some(k)), acts)
  {
  }

  lemma AdoptKeepsDrawn(s: State, acts: seq<Action>, c: nat)
    requires AllDrawn(s, acts) && c in s.callers
    ensures AllDrawn(Adopt(s, c), acts)
  {
    MoveKeepsDrawn(s, acts, c, Failed, s.file);
    if Whole(s.file) { ReturnKeepsDrawn(s, acts, c, s.file.value); }
  }

  lemma DrawnStep(s: State, acts: seq<Action>, a: Action)
    requires Inv(s) && AllDrawn(s, acts) && Enabled(s, a)
    ensures AllDrawn(Next(s, a), acts + [a])
  {
    AllDrawnStays(s, acts, a);
    var after := acts + [a];
    assert after[|acts|] == a;
    match a
    case Call(_, _, _) =>
    case Crash(_) =>
    case FirstRead(c) =>
      AdoptKeepsDrawn(s, after, c);
      MoveKeepsDrawn(s, after, c, NoFile, s.file);
      var at := (s.callers[c].process, s.callers[c].provider);
      if at in s.caches { ReturnKeepsDrawn(s, after, c, s.caches[at]); }
    case Generate(c, key) => MoveKeepsDrawn(s, after, c, Prepared(key), s.file);
    case Link(c) =>
      MoveKeepsDrawn(s, after, c, LinkLost, s.file);
      ReturnKeepsDrawn(s, after, c, s.callers[c].step.key);
    case AdoptAfterLink(c) => AdoptKeepsDrawn(s, after, c);
    case AdoptUnderLock(c) => AdoptKeepsDrawn(s, after, c);
    case _ => WritingKeepsDrawn(s, after, a);
  }

  lemma WritingKeepsDrawn(s: State, acts: seq<Action>, a: Action)
    requires Inv(s) && AllDrawn(s, acts) && Enabled(s, a)
    requires a.RefuseLink? || a.TakeLock? || a.CreateExcl? || a.Write? || a.Close? || IsError(a)
    ensures AllDrawn(Next(s, a), acts)
  {
    match a
    case CreateExcl(c) => CreatingKeepsDrawn(s, acts, c);
    case Write(c, n) =>
      var key := s.callers[c].step.key;
      assert n == |key| ==> key[..n] == key;
      MoveKeepsDrawn(s, acts, c, Writing(key, n), Some(key[..n]));
    case Close(c) => ReturnKeepsDrawn(s, acts, c, s.callers[c].step.key);
    case _ =>
  }

  lemma CreatingKeepsDrawn(s: State, acts: seq<Action>, c: nat)
    requires AllDrawn(s, acts) && Enabled(s, CreateExcl(c))
    ensures AllDrawn(Next(s, CreateExcl(c)), acts)
  {
    MoveKeepsDrawn(s, acts, c, Writing(s.callers[c].step.key, 0), Some([]));
    MoveKeepsDrawn(s, acts, c, Beaten, s.file);
  }

  lemma {:induction false} DrawnOverRuns(s: State, before: seq<Action>, acts: seq<Action>)
    requires Inv(s) && AllDrawn(s, before) && Runs(s, acts) && SyncErrorFree(acts)
    ensures AllDrawn(Last(s, acts), before + acts)
    decreases |acts|
  {
    if acts == [] {
      assert before + acts == before;
    } else {
      InvStep(s, acts[0]);
      DrawnStep(s, before, acts[0]);
      assert forall i :: 0 <= i < |acts| - 1 ==> acts[1..][i] == acts[i + 1];
      DrawnOverRuns(Next(s, acts[0]), before + [acts[0]], acts[1..]);
      assert before + [acts[0]] + acts[1..] == before + acts;
    }
  }

  /** Every key ever returned is one that some call drew at random in the run. */
  lemma KeysAreDrawn(s: State, acts: seq<Action>, key: Bytes)
    requires Initial(s) && Runs(s, acts) && SyncErrorFree(acts) && key in Last(s, acts).issued
    ensures Drawn(acts, key)
  {
    DrawnOverRuns(s, [], acts);
    assert [] + acts == acts;
  }

  // ----- that a call can end -----

  /** The mutex of a process is held by exactly the call that publishes there. */
  ghost predicate LocksFit(s: State) {
    && (forall p :: p in s.locks ==>
          s.locks[p] in s.callers && s.callers[s.locks[p]].process == p && HoldsLock(s.callers[s.locks[p]].step))
    && (forall c :: c in s.callers && HoldsLock(s.callers[c].step) ==>
          s.callers[c].process in s.locks && s.locks[s.callers[c].process] == c)
  }

  /** A call neither takes nor gives up the mutex. */
  lemma MoveKeepsFit(s: State, c: nat, t: State)
    requires LocksFit(s) && c in s.callers && c in t.callers && t.locks == s.locks
    requires t.callers == s.callers[c := t.callers[c]] && t.callers[c].process == s.callers[c].process
    requires HoldsLock(t.callers[c].step) <==> HoldsLock(s.callers[c].step)
    ensures LocksFit(t)
  {
  }

  lemma EndingKeepsFit(s: State, c: nat, t: State)
    requires LocksFit(s) && c in s.callers && c in t.callers && t.locks == s.locks - {s.callers[c].process}
    requires t.callers == s.callers[c := t.callers[c]] && t.callers[c].process == s.callers[c].process
    requires HoldsLock(s.callers[c].step) && !HoldsLock(t.callers[c].step)
    ensures LocksFit(t)
  {
  }

  ghost predicate Unlocks(a: Action, step: Step) {
    || a.AdoptUnderLock? || a.Close? || a.CloseError? || a.WriteError? || a.SyncError?
    || (a.OtherError? && HoldsLock(step))
  }

  lemma FitStep(s: State, a: Action)
    requires LocksFit(s) && Enabled(s, a)
    ensures LocksFit(Next(s, a))
  {
    if CallOf(a).Some? && !a.TakeLock? {
      if Unlocks(a, s.callers[a.c].step) { UnlockingStep(s, a); } else { MovingStep(s, a); }
    }
  }

  lemma UnlockingStep(s: State, a: Action)
    requires LocksFit(s) && Enabled(s, a) && CallOf(a).Some? && Unlocks(a, s.callers[a.c].step)
    ensures LocksFit(Next(s, a))
  {
    EndingKeepsFit(s, a.c, Next(s, a));
  }

  lemma MovingStep(s: State, a: Action)
    requires LocksFit(s) && Enabled(s, a) && CallOf(a).Some? && !a.TakeLock? && !Unlocks(a, s.callers[a.c].step)
    ensures LocksFit(Next(s, a))
  {
    MoveKeepsFit(s, a.c, Next(s, a));
  }

  lemma {:induction false} FitOverRuns(s: State, acts: seq<Action>)
    requires LocksFit(s) && Runs(s, acts)
    ensures LocksFit(Last(s, acts))
    decreases |acts|
  {
    if acts != [] {
      FitStep(s, acts[0]);
      FitOverRuns(Next(s, acts[0]), acts[1..]);
    }
  }

  ghost predicate Own(c: nat, acts: seq<Action>) {
    forall i :: 0 <= i < |acts| ==> CallOf(acts[i]) == Some(c)
  }

  /** By its own steps alone the call gets the key that the file then holds. */
  ghost predicate ReturnsAfter(s: State, acts: seq<Action>, c: nat) {
    && Runs(s, acts) && Own(c, acts)
    && var t := Last(s, acts);
       c in t.callers && t.callers[c].step.Returned? && t.file == Some(t.callers[c].step.key)
  }

  ghost predicate CanReturn(s: State, c: nat) {
    exists acts: seq<Action> :: ReturnsAfter(s, acts, c)
  }

  /** Nothing of others stands in the call's way: no short file, no file gone that it lost to, no mutex held. */
  ghost predicate Unhindered(s: State, c: nat)
    requires c in s.callers
  {
    var step := s.callers[c].step;
    && !step.Failed?
    && (step.Writing? || s.file.None? || Whole(s.file))
    && (step.LinkLost? || step.Beaten? ==> s.file.Some?)
    && (step.LinkRefused? ==> s.callers[c].process !in s.locks)
  }

  lemma After(s: State, a: Action, c: nat)
    requires Enabled(s, a) && CallOf(a) == Some(c) && CanReturn(Next(s, a), c)
    ensures CanReturn(s, c)
  {
    var rest :| ReturnsAfter(Next(s, a), rest, c);
    var acts := [a] + rest;
    assert acts[1..] == rest;
    assert ReturnsAfter(s, acts, c);
  }

  lemma Returns(s: State, c: nat)
    requires Inv(s) && c in s.callers && s.callers[c].step.Returned?
    ensures CanReturn(s, c)
  {
    assert ReturnsAfter(s, [], c);
  }

  /** The call's next step when all goes well. */
  ghost function Onward(c: nat, step: Step, key: Bytes): Action {
    match step
    case Begun => FirstRead(c)
    case NoFile => Generate(c, key)
    case Prepared(_) => Link(c)
    case LinkLost => AdoptAfterLink(c)
    case LinkRefused(_) => TakeLock(c)
    case Publishing(_) => CreateExcl(c)
    case Beaten => AdoptUnderLock(c)
    case Writing(k, n) => if n < |k| then Write(c, |k|) else Close(c)
    case _ => OtherError(c)
  }

  ghost function ToGo(step: Step): nat {
    match step
    case Begun => 5
    case NoFile => 4
    case LinkRefused(_) => 4
    case Prepared(_) => 3
    case Publishing(_) => 3
    case Writing(k, n) => if n < |k| then 2 else 1
    case LinkLost => 1
    case Beaten => 1
    case _ => 0
  }

  lemma OnwardStaysUnhindered(s: State, c: nat, key: Bytes)
    requires Inv(s) && c in s.callers && Unhindered(s, c) && !s.callers[c].step.Returned? && |key| == KEY_LEN
    ensures var a := Onward(c, s.callers[c].step, key);
      && Enabled(s, a) && CallOf(a) == Some(c) && !a.SyncError? && c in Next(s, a).callers
      && Unhindered(Next(s, a), c) && ToGo(Next(s, a).callers[c].step) < ToGo(s.callers[c].step)
  {
    var step := s.callers[c].step;
    if step.Begun? || step.NoFile? || step.Prepared? || step.LinkLost? {
      LinkingStaysUnhindered(s, c, key);
    } else {
      CreatingStaysUnhindered(s, c, key);
    }
  }

  lemma LinkingStaysUnhindered(s: State, c: nat, key: Bytes)
    requires Inv(s) && c in s.callers && Unhindered(s, c) && |key| == KEY_LEN
    requires var step := s.callers[c].step; step.Begun? || step.NoFile? || step.Prepared? || step.LinkLost?
    ensures var a := Onward(c, s.callers[c].step, key);
      && Enabled(s, a) && CallOf(a) == Some(c) && !a.SyncError? && c in Next(s, a).callers
      && Unhindered(Next(s, a), c) && ToGo(Next(s, a).callers[c].step) < ToGo(s.callers[c].step)
  {
  }

  lemma CreatingStaysUnhindered(s: State, c: nat, key: Bytes)
    requires Inv(s) && c in s.callers && Unhindered(s, c)
    requires var step := s.callers[c].step; HoldsLock(step) || step.LinkRefused?
    ensures var a := Onward(c, s.callers[c].step, key);
      && Enabled(s, a) && CallOf(a) == Some(c) && !a.SyncError? && c in Next(s, a).callers
      && Unhindered(Next(s, a), c) && ToGo(Next(s, a).callers[c].step) < ToGo(s.callers[c].step)
  {
  }

  lemma {:induction false} UnhinderedReturns(s: State, c: nat, key: Bytes)
    requires Inv(s) && c in s.callers && Unhindered(s, c) && |key| == KEY_LEN
    ensures CanReturn(s, c)
    decreases ToGo(s.callers[c].step)
  {
    if s.callers[c].step.Returned? {
      Returns(s, c);
    } else {
      var a := Onward(c, s.callers[c].step, key);
      OnwardStaysUnhindered(s, c, key);
      InvStep(s, a);
      UnhinderedReturns(Next(s, a), c, key);
      After(s, a, c);
    }
  }

  lemma HinderedStep(s: State, a: Action, c: nat)
    requires Inv(s) && LocksFit(s) && c in s.callers && !Unhindered(s, c) && Enabled(s, a) && CallOf(a) == Some(c)
    ensures !a.SyncError? && !Unhindered(Next(s, a), c)
  {
    var at := (s.callers[c].process, s.callers[c].provider);
    if at in s.caches { assert s.caches[at] in s.issued; }
  }

  lemma {:induction false} HinderedNeverReturns(s: State, acts: seq<Action>, c: nat)
    requires Inv(s) && LocksFit(s) && c in s.callers && !Unhindered(s, c)
    ensures !ReturnsAfter(s, acts, c)
    decreases |acts|
  {
    if ReturnsAfter(s, acts, c) {
      if acts != [] {
        HinderedStep(s, acts[0], c);
        InvStep(s, acts[0]);
        FitStep(s, acts[0]);
        assert forall i :: 0 <= i < |acts| - 1 ==> acts[1..][i] == acts[i + 1];
        HinderedNeverReturns(Next(s, acts[0]), acts[1..], c);
      }
    }
  }

  /**
    In every state a run without a failed sync reaches, a call can end with the key by its own steps exactly if it has
    not failed, no short file of another's stands there, the file it lost a race to is still there, and the mutex it
    waits for is free.
   */
  lemma CallCompletesIff(s: State, acts: seq<Action>, c: nat)
    requires Initial(s) && Runs(s, acts) && SyncErrorFree(acts) && c in Last(s, acts).callers
    ensures CanReturn(Last(s, acts), c) <==> Unhindered(Last(s, acts), c)
  {
    InvOverRuns(s, acts);
    FitOverRuns(s, acts);
    var t := Last(s, acts);
    if Unhindered(t, c) {
      UnhinderedReturns(t, c, seq(KEY_LEN, _ => 0));
    } else {
      forall more: seq<Action> ensures !ReturnsAfter(t, more, c) { HinderedNeverReturns(t, more, c); }
    }
  }
}
