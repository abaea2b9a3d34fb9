/**
  Creation of the master key: any number of callers in any number of processes race to read, generate and
  publish one key file, by link(2) or by an exclusive create, and processes may die at any step.
 */
module MasterKey {
  import Numbers

  type Bytes = seq<nat>

  /** The length every reader insists on. */
  const KEY_LEN: nat := 32

  datatype Option<T> = None | Some(value: T)

  datatype Step =
    | Begun
    | NoFile                          // the first read found no key file
    | Prepared(key: Bytes)            // own key complete in an own temp file
    | LinkLost                        // link(2) found the name taken
    | LinkRefused(key: Bytes)         // link(2) not supported: about to take publishMu
    | Publishing(key: Bytes)          // publishMu held
    | Beaten                          // exclusive create found the name taken; publishMu held
    | Writing(key: Bytes, n: nat)     // created exclusively, n bytes written; publishMu held
    | Returned(key: Bytes)
    | Failed

  datatype Caller = Caller(process: nat, provider: nat, step: Step)

  datatype State = State(
    file: Option<Bytes>,              // the key file
    callers: map<nat, Caller>,
    caches: map<(nat, nat), Bytes>,   // (process, provider) -> cached key
    locks: map<nat, nat>,             // process -> holder of its publishMu
    issued: set<Bytes>)               // every key any call ever returned

  datatype Action =
    | Call(c: nat, process: nat, provider: nat)
    | FirstRead(c: nat)
    | Generate(c: nat, key: Bytes)
    | Link(c: nat)
    | RefuseLink(c: nat)
    | AdoptAfterLink(c: nat)
    | TakeLock(c: nat)
    | CreateExcl(c: nat)
    | AdoptUnderLock(c: nat)
    | Write(c: nat, n: nat)
    | Close(c: nat)
    | CloseError(c: nat)
    | WriteError(c: nat)              // short write: the file is removed
    | SyncError(c: nat)               // complete write, failed sync: the file is removed
    | OtherError(c: nat)              // any failure without touching the file
    | Crash(process: nat)

  ghost predicate At(s: State, c: nat) {
    c in s.callers
  }

  ghost predicate Enabled(s: State, a: Action) {
    match a
    case Call(c, _, _) => c !in s.callers
    case FirstRead(c) => At(s, c) && s.callers[c].step.Begun?
    case Generate(c, key) => At(s, c) && s.callers[c].step.NoFile? && |key| == KEY_LEN
    case Link(c) => At(s, c) && s.callers[c].step.Prepared?
    case RefuseLink(c) => At(s, c) && s.callers[c].step.Prepared?
    case AdoptAfterLink(c) => At(s, c) && s.callers[c].step.LinkLost?
    case TakeLock(c) => At(s, c) && s.callers[c].step.LinkRefused? && s.callers[c].process !in s.locks
    case CreateExcl(c) => At(s, c) && s.callers[c].step.Publishing?
    case AdoptUnderLock(c) => At(s, c) && s.callers[c].step.Beaten?
    case Write(c, n) =>
      At(s, c) && s.callers[c].step.Writing? && s.callers[c].step.n < n <= |s.callers[c].step.key|
    case Close(c) => At(s, c) && s.callers[c].step.Writing? && s.callers[c].step.n == |s.callers[c].step.key|
    case CloseError(c) => At(s, c) && s.callers[c].step.Writing? && s.callers[c].step.n == |s.callers[c].step.key|
    case WriteError(c) => At(s, c) && s.callers[c].step.Writing? && s.callers[c].step.n < |s.callers[c].step.key|
    case SyncError(c) => At(s, c) && s.callers[c].step.Writing? && s.callers[c].step.n == |s.callers[c].step.key|
    case OtherError(c) =>
      At(s, c) &&
      (var p := s.callers[c].step; p.Begun? || p.NoFile? || p.Prepared? || p.LinkLost? || p.Publishing? || p.Beaten?)
    case Crash(_) => true
  }

  ghost function Move(s: State, c: nat, step: Step): State
    requires c in s.callers
  {
    s.(callers := s.callers[c := s.callers[c].(step := step)])
  }

  ghost function Unlock(s: State, c: nat): State
    requires c in s.callers
  {
    s.(locks := s.locks - {s.callers[c].process})
  }

  /** The call returns `key`, which its provider caches. */
  ghost function Return(s: State, c: nat, key: Bytes): State
    requires c in s.callers
  {
    Move(s, c, Returned(key)).(
      caches := s.caches[(s.callers[c].process, s.callers[c].provider) := key],
      issued := s.issued + {key})
  }

  /** A read of the key file: 32 bytes are the key, anything else is reported as corrupt. */
  ghost function Adopt(s: State, c: nat): State
    requires c in s.callers
  {
    if s.file.Some? && |s.file.value| == KEY_LEN then Return(s, c, s.file.value) else Move(s, c, Failed)
  }

  ghost function Next(s: State, a: Action): State
    requires Enabled(s, a)
  {
    match a
    case Call(c, p, v) => s.(callers := s.callers[c := Caller(p, v, Begun)])
    case FirstRead(c) =>
      var at := (s.callers[c].process, s.callers[c].provider);
      if at in s.caches then Return(s, c, s.caches[at])
      else if s.file.None? then Move(s, c, NoFile)
      else Adopt(s, c)
    case Generate(c, key) => Move(s, c, Prepared(key))
    case Link(c) =>
      if s.file.None? then Return(s, c, s.callers[c].step.key).(file := Some(s.callers[c].step.key))
      else Move(s, c, LinkLost)
    case RefuseLink(c) => Move(s, c, LinkRefused(s.callers[c].step.key))
    case AdoptAfterLink(c) => Adopt(s, c)
    case TakeLock(c) =>
      Move(s, c, Publishing(s.callers[c].step.key)).(locks := s.locks[s.callers[c].process := c])
    case CreateExcl(c) =>
      if s.file.None? then Move(s, c, Writing(s.callers[c].step.key, 0)).(file := Some([])) else Move(s, c, Beaten)
    case AdoptUnderLock(c) => Unlock(Adopt(s, c), c)
    case Write(c, n) =>
      var key := s.callers[c].step.key;
      Move(s, c, Writing(key, n)).(file := Some(key[..n]))
    case Close(c) => Unlock(Return(s, c, s.callers[c].step.key), c)
    case CloseError(c) => Unlock(Move(s, c, Failed), c)
    case WriteError(c) => Unlock(Move(s, c, Failed), c).(file := None)
    case SyncError(c) => Unlock(Move(s, c, Failed), c).(file := None)
    case OtherError(c) =>
      var t := Move(s, c, Failed);
      if s.callers[c].step.Publishing? || s.callers[c].step.Beaten? then Unlock(t, c) else t
    case Crash(p) => s.(
      callers := map c | c in s.callers && s.callers[c].process != p :: s.callers[c],
      caches := map at | at in s.caches && at.0 != p :: s.caches[at],
      locks := s.locks - {p})
  }

  ghost predicate Runs(s: State, acts: seq<Action>)
    decreases |acts|
  {
    acts == [] || (Enabled(s, acts[0]) && Runs(Next(s, acts[0]), acts[1..]))
  }

  ghost function Last(s: State, acts: seq<Action>): State
    requires Runs(s, acts)
    decreases |acts|
  {
    if acts == [] then s else Last(Next(s, acts[0]), acts[1..])
  }

  ghost predicate SyncErrorFree(acts: seq<Action>) {
    forall i :: 0 <= i < |acts| ==> !acts[i].SyncError?
  }

  ghost predicate Initial(s: State) {
    s == State(None, map[], map[], map[], {})
  }

  /** All keys ever returned are one key. */
  ghost predicate Agreement(s: State) {
    forall k, k' :: k in s.issued && k' in s.issued ==> k == k'
  }

  /** What every action but a failed sync keeps. */
  ghost predicate Inv(s: State) {
    && (forall k :: k in s.issued ==> |k| == KEY_LEN && s.file == Some(k))
    && (forall at :: at in s.caches ==> s.caches[at] in s.issued)
    && (forall c :: c in s.callers ==>
          match s.callers[c].step
          case Prepared(k) => |k| == KEY_LEN
          case LinkRefused(k) => |k| == KEY_LEN
          case Publishing(k) => |k| == KEY_LEN
          case Writing(k, n) => |k| == KEY_LEN && n <= |k| && s.file == Some(k[..n])
          case Returned(k) => k in s.issued
          case _ => true)
    && (forall c, d :: c in s.callers && d in s.callers && s.callers[c].step.Writing? && s.callers[d].step.Writing?
          ==> c == d)
  }

  lemma MoveKeepsInv(s: State, c: nat, step: Step)
    requires Inv(s) && c in s.callers && !step.Writing? && !step.Returned?
    requires step.Prepared? || step.LinkRefused? || step.Publishing? ==> |step.key| == KEY_LEN
    ensures Inv(Move(s, c, step))
  {
  }

  lemma ReturnKeepsInv(s: State, c: nat, k: Bytes)
    requires Inv(s) && c in s.callers && s.file == Some(k) && |k| == KEY_LEN
    ensures Inv(Return(s, c, k))
  {
  }

  lemma AdoptKeepsInv(s: State, c: nat)
    requires Inv(s) && c in s.callers
    ensures Inv(Adopt(s, c))
  {
    MoveKeepsInv(s, c, Failed);
    if s.file.Some? && |s.file.value| == KEY_LEN { ReturnKeepsInv(s, c, s.file.value); }
  }

  lemma InvStep(s: State, a: Action)
    requires Inv(s) && Enabled(s, a) && !a.SyncError?
    ensures Inv(Next(s, a))
  {
    match a
    case Call(_, _, _) =>
    case FirstRead(c) =>
      AdoptKeepsInv(s, c);
      MoveKeepsInv(s, c, NoFile);
      var at := (s.callers[c].process, s.callers[c].provider);
      if at in s.caches { ReturnKeepsInv(s, c, s.caches[at]); }
    case Generate(c, key) => MoveKeepsInv(s, c, Prepared(key));
    case Link(c) => LinkKeepsInv(s, c);
    case RefuseLink(c) => MoveKeepsInv(s, c, LinkRefused(s.callers[c].step.key));
    case AdoptAfterLink(c) => AdoptKeepsInv(s, c);
    case TakeLock(c) => MoveKeepsInv(s, c, Publishing(s.callers[c].step.key));
    case CreateExcl(c) => CreateKeepsInv(s, c);
    case AdoptUnderLock(c) => AdoptKeepsInv(s, c);
    case Write(c, n) => WriteKeepsInv(s, c, n);
    case Close(c) =>
      CompleteFile(s, c);
      ReturnKeepsInv(s, c, s.callers[c].step.key);
    case CloseError(c) => MoveKeepsInv(s, c, Failed);
    case WriteError(c) =>
      ShortFileIssuesNothing(s, c);
      MoveKeepsInv(s, c, Failed);
      assert forall d :: d in s.callers && s.callers[d].step.Writing? ==> d == c;
    case OtherError(c) => MoveKeepsInv(s, c, Failed);
    case Crash(p) =>
  }

  lemma LinkKeepsInv(s: State, c: nat)
    requires Inv(s) && Enabled(s, Link(c))
    ensures Inv(Next(s, Link(c)))
  {
    if s.file.None? {
      var k := s.callers[c].step.key;
      var s' := s.(file := Some(k));
      assert Inv(s');
      ReturnKeepsInv(s', c, k);
    } else {
      MoveKeepsInv(s, c, LinkLost);
    }
  }

  lemma CreateKeepsInv(s: State, c: nat)
    requires Inv(s) && Enabled(s, CreateExcl(c))
    ensures Inv(Next(s, CreateExcl(c)))
  {
    if s.file.None? {
      assert s.callers[c].step.key[..0] == [];
    } else {
      MoveKeepsInv(s, c, Beaten);
    }
  }

  lemma CompleteFile(s: State, c: nat)
    requires Inv(s) && Enabled(s, Close(c))
    ensures s.file == Some(s.callers[c].step.key)
  {
    var key := s.callers[c].step.key;
    assert key[..|key|] == key;
  }

  lemma ShortFileIssuesNothing(s: State, c: nat)
    requires Inv(s) && Enabled(s, WriteError(c))
    ensures s.issued == {}
  {
    var p := s.callers[c].step;
    assert |p.key[..p.n]| < KEY_LEN;
  }

  lemma WriteKeepsInv(s: State, c: nat, n: nat)
    requires Inv(s) && Enabled(s, Write(c, n))
    ensures Inv(Next(s, Write(c, n)))
  {
    ShortFileIssuesNothing(s, c);
  }

  lemma {:induction false} InvOverRuns(s: State, acts: seq<Action>)
    requires Inv(s) && Runs(s, acts) && SyncErrorFree(acts)
    ensures Inv(Last(s, acts)) && s.issued <= Last(s, acts).issued
    decreases |acts|
  {
    if acts != [] {
      InvStep(s, acts[0]);
      assert forall i :: 0 <= i < |acts| - 1 ==> acts[1..][i] == acts[i + 1];
      InvOverRuns(Next(s, acts[0]), acts[1..]);
    }
  }

  /**
    Main result: over every run without a failed sync, crashes, short writes and refused links included, all
    keys ever returned are the same 32 bytes and are what the file holds.
   */
  lemma AllCallersAgree(s: State, acts: seq<Action>)
    requires Initial(s) && Runs(s, acts) && SyncErrorFree(acts)
    ensures var t := Last(s, acts);
      Agreement(t) && forall k :: k in t.issued ==> |k| == KEY_LEN && t.file == Some(k)
  {
    InvOverRuns(s, acts);
  }

  /** Once a key has been returned the file never changes again. */
  lemma PublishedFileIsFinal(s: State, before: seq<Action>, after: seq<Action>)
    requires Initial(s) && Runs(s, before) && SyncErrorFree(before) && Last(s, before).issued != {}
    requires Runs(Last(s, before), after) && SyncErrorFree(after)
    ensures Last(Last(s, before), after).file == Last(s, before).file
  {
    InvOverRuns(s, before);
    InvOverRuns(Last(s, before), after);
    var k :| k in Last(s, before).issued;
  }

  /** A call that meets a short file fails; it never returns another key. */
  lemma ShortFileReturnsNothing(s: State, a: Action, c: nat)
    requires Inv(s) && s.file.Some? && |s.file.value| < KEY_LEN && At(s, c)
    requires a in {FirstRead(c), AdoptAfterLink(c), AdoptUnderLock(c)} && Enabled(s, a)
    ensures Next(s, a).callers[c].step == Failed && Next(s, a).issued == s.issued
  {
    var at := (s.callers[c].process, s.callers[c].provider);
    assert at !in s.caches;
  }

  // ----- sealing under the returned key -----

  /** An AEAD box, idealised: it opens under its own key and alias only. */
  datatype Box = Box(key: Bytes, nonce: nat, alias: string, secret: Bytes)

  function Seal(key: Bytes, nonce: nat, alias: string, secret: Bytes): Box {
    Box(key, nonce, alias, secret)
  }

  function Unseal(key: Bytes, alias: string, box: Box): Option<Bytes> {
    if box.key == key && box.alias == alias then Some(box.secret) else None
  }

  /** Whatever any call's key sealed, every later call's key opens, in whatever process. */
  lemma SealedStaysOpenable(s: State, before: seq<Action>, after: seq<Action>, k: Bytes, k': Bytes,
                              nonce: nat, alias: string, secret: Bytes)
    requires Initial(s) && Runs(s, before) && SyncErrorFree(before) && k in Last(s, before).issued
    requires Runs(Last(s, before), after) && SyncErrorFree(after) && k' in Last(Last(s, before), after).issued
    ensures Unseal(k', alias, Seal(k, nonce, alias, secret)) == Some(secret)
  {
    InvOverRuns(s, before);
    InvOverRuns(Last(s, before), after);
  }

  // ----- the failed sync -----

  /** No continuation without a further failed sync makes two calls disagree. */
  ghost predicate StaysAgreed(s: State) {
    forall acts :: Runs(s, acts) && SyncErrorFree(acts) ==> Agreement(Last(s, acts))
  }

  /**
    A failed sync removes a complete file.  That is harmless if and only if no call has returned the key in the
    window since the write; the code does not check.
   */
  lemma FailedSyncHarmlessIff(s: State, c: nat)
    requires Inv(s) && Enabled(s, SyncError(c))
    ensures StaysAgreed(Next(s, SyncError(c))) <==> s.issued == {}
  {
    var t := Next(s, SyncError(c));
    if s.issued == {} {
      assert Inv(t);
      forall acts | Runs(t, acts) && SyncErrorFree(acts)
        ensures Agreement(Last(t, acts))
      {
        InvOverRuns(t, acts);
      }
    } else {
      var k :| k in s.issued;
      var acts := PublishAnother(t, k);
    }
  }

  /**
    A run to that end: a call writes the key file whole, a call of another process adopts it, the first one's sync
    fails and the file is removed; the next call of a third process publishes another key.
   */
  lemma FailedSyncDisagrees(key: Bytes) returns (s: State, acts: seq<Action>)
    requires |key| == KEY_LEN
    ensures Initial(s) && Runs(s, acts) && !Agreement(Last(s, acts))
  {
    s := State(None, map[], map[], map[], {});
    var first := WritesWhole(s, key);
    var t := Last(s, first);
    var adopted := AdoptedBeforeSync(t, key);
    RunsConcat(s, first, adopted);
    var u := Last(t, adopted);
    var another := PublishAnother(u, key);
    RunsConcat(s, first + adopted, another);
    acts := first + adopted + another;
  }

  lemma WritesWhole(s: State, key: Bytes) returns (acts: seq<Action>)
    requires |key| == KEY_LEN && Initial(s)
    ensures Runs(s, acts)
    ensures Last(s, acts) == State(Some(key), map[0 := Caller(0, 0, Writing(key, KEY_LEN))], map[], map[0 := 0], {})
  {
    assert key[..KEY_LEN] == key;
    acts := Before(AloneAt(Some([]), Writing(key, 0), true), Write(0, KEY_LEN), []);
    acts := CreatesBefore(s, key, acts);
  }

  /** One caller alone, at a step of its first call. */
  ghost function AloneAt(file: Option<Bytes>, step: Step, locked: bool): State {
    State(file, map[0 := Caller(0, 0, step)], map[], if locked then map[0 := 0] else map[], {})
  }

  lemma AloneMoves(file: Option<Bytes>, step: Step, locked: bool, to: Step)
    ensures Move(AloneAt(file, step, locked), 0, to) == AloneAt(file, to, locked)
  {
    var s := AloneAt(file, step, locked);
    assert Move(s, 0, to).callers == map[0 := Caller(0, 0, to)];
  }

  lemma BeforeState(s: State, a: Action, t: State, rest: seq<Action>) returns (acts: seq<Action>)
    requires Enabled(s, a) && !a.SyncError? && Next(s, a) == t && Runs(t, rest) && SyncErrorFree(rest)
    ensures Runs(s, acts) && SyncErrorFree(acts) && Last(s, acts) == Last(t, rest) && acts == [a] + rest
  {
    acts := Before(s, a, rest);
  }

  /** The caller creates the file exclusively, and then the rest happens. */
  lemma CreatesBefore(s: State, key: Bytes, rest: seq<Action>) returns (acts: seq<Action>)
    requires |key| == KEY_LEN && Initial(s) && SyncErrorFree(rest)
    requires Runs(AloneAt(Some([]), Writing(key, 0), true), rest)
    ensures Runs(s, acts) && SyncErrorFree(acts)
    ensures Last(s, acts) == Last(AloneAt(Some([]), Writing(key, 0), true), rest)
    ensures forall a :: a in acts ==> a in rest || (!a.Crash? && (a.Call? ==> a.process == 0))
  {
    acts := LocksBefore(key, rest);
    acts := PreparesBefore(s, key, acts);
  }

  lemma LocksBefore(key: Bytes, rest: seq<Action>) returns (acts: seq<Action>)
    requires |key| == KEY_LEN && SyncErrorFree(rest)
    requires Runs(AloneAt(Some([]), Writing(key, 0), true), rest)
    ensures Runs(AloneAt(None, Prepared(key), false), acts) && SyncErrorFree(acts)
    ensures Last(AloneAt(None, Prepared(key), false), acts) == Last(AloneAt(Some([]), Writing(key, 0), true), rest)
    ensures acts == [RefuseLink(0)] + ([TakeLock(0)] + ([CreateExcl(0)] + rest))
  {
    var s1, s2 := AloneAt(None, Prepared(key), false), AloneAt(None, LinkRefused(key), false);
    var s3, s4 := AloneAt(None, Publishing(key), true), AloneAt(Some([]), Writing(key, 0), true);
    AloneMoves(None, Prepared(key), false, LinkRefused(key));
    AloneMoves(None, LinkRefused(key), false, Publishing(key));
    AloneMoves(None, Publishing(key), true, Writing(key, 0));
    assert Next(s2, TakeLock(0)).locks == map[0 := 0];
    acts := BeforeState(s3, CreateExcl(0), s4, rest);
    acts := BeforeState(s2, TakeLock(0), s3, acts);
    acts := BeforeState(s1, RefuseLink(0), s2, acts);
  }

  lemma PreparesBefore(s: State, key: Bytes, rest: seq<Action>) returns (acts: seq<Action>)
    requires |key| == KEY_LEN && Initial(s) && SyncErrorFree(rest)
    requires Runs(AloneAt(None, Prepared(key), false), rest)
    ensures Runs(s, acts) && SyncErrorFree(acts) && Last(s, acts) == Last(AloneAt(None, Prepared(key), false), rest)
    ensures acts == [Call(0, 0, 0)] + ([FirstRead(0)] + ([Generate(0, key)] + rest))
  {
    var s1, s2 := AloneAt(None, Begun, false), AloneAt(None, NoFile, false);
    var s3 := AloneAt(None, Prepared(key), false);
    AloneMoves(None, Begun, false, NoFile);
    AloneMoves(None, NoFile, false, Prepared(key));
    acts := BeforeState(s2, Generate(0, key), s3, rest);
    acts := BeforeState(s1, FirstRead(0), s2, acts);
    acts := BeforeState(s, Call(0, 0, 0), s1, acts);
  }

  lemma AdoptedBeforeSync(s: State, key: Bytes) returns (acts: seq<Action>)
    requires |key| == KEY_LEN
    requires s == State(Some(key), map[0 := Caller(0, 0, Writing(key, KEY_LEN))], map[], map[0 := 0], {})
    ensures Runs(s, acts) && Last(s, acts).file == None && key in Last(s, acts).issued
  {
    var s1 := Next(s, Call(1, 1, 0));
    var s2 := Next(s1, FirstRead(1));
    acts := [Call(1, 1, 0), FirstRead(1), SyncError(0)];
    assert acts[1..] == [FirstRead(1), SyncError(0)] && acts[1..][1..] == [SyncError(0)] && acts[1..][1..][1..] == [];
    assert Runs(s2, [SyncError(0)]) && Last(s2, [SyncError(0)]) == Next(s2, SyncError(0));
    assert Runs(s1, acts[1..]);
  }

  lemma {:induction false} RunsConcat(s: State, xs: seq<Action>, ys: seq<Action>)
    requires Runs(s, xs) && Runs(Last(s, xs), ys)
    ensures Runs(s, xs + ys) && Last(s, xs + ys) == Last(Last(s, xs), ys)
    decreases |xs|
  {
    if xs == [] {
      assert xs + ys == ys;
    } else {
      RunsConcat(Next(s, xs[0]), xs[1..], ys);
      assert (xs + ys)[0] == xs[0] && (xs + ys)[1..] == xs[1..] + ys;
    }
  }

  lemma PublishAnother(s: State, k: Bytes) returns (acts: seq<Action>)
    requires s.file == None && k in s.issued && |k| == KEY_LEN
    ensures Runs(s, acts) && SyncErrorFree(acts) && !Agreement(Last(s, acts))
  {
    var other := k[0 := k[0] + 1];
    assert other[0] != k[0];
    var c := Numbers.Unused(s.callers.Keys);
    var p := Numbers.Unused(set at | at in s.caches :: at.0);
    var s1 := Next(s, Call(c, p, 0));
    var s2 := Next(s1, FirstRead(c));
    var s3 := Next(s2, Generate(c, other));
    var s4 := Next(s3, Link(c));
    assert k in s4.issued && other in s4.issued;
    acts := Before(s3, Link(c), []);
    acts := Before(s2, Generate(c, other), acts);
    acts := Before(s1, FirstRead(c), acts);
    acts := Before(s, Call(c, p, 0), acts);
  }

  lemma Before(s: State, a: Action, rest: seq<Action>) returns (acts: seq<Action>)
    requires Enabled(s, a) && !a.SyncError? && Runs(Next(s, a), rest) && SyncErrorFree(rest)
    ensures Runs(s, acts) && SyncErrorFree(acts) && Last(s, acts) == Last(Next(s, a), rest)
    ensures acts == [a] + rest
  {
    acts := [a] + rest;
    assert acts[1..] == rest;
  }

  // ----- what publishMu adds -----

  /** One process that does not die. */
  ghost predicate OneProcess(s: State, acts: seq<Action>) {
    && (forall c :: c in s.callers ==> s.callers[c].process == 0)
    && forall i :: 0 <= i < |acts| ==> !acts[i].Crash? && (acts[i].Call? ==> acts[i].process == 0)
  }

  ghost predicate HoldsLock(step: Step) {
    step.Publishing? || step.Beaten? || step.Writing?
  }

  ghost predicate Locked(s: State) {
    && (forall c :: c in s.callers ==> s.callers[c].process == 0)
    && (forall c :: c in s.callers && HoldsLock(s.callers[c].step) ==> 0 in s.locks && s.locks[0] == c)
    && (s.file.Some? && |s.file.value| != KEY_LEN ==>
          0 in s.locks && s.locks[0] in s.callers && s.callers[s.locks[0]].step.Writing?)
    && (forall c :: c in s.callers && s.callers[c].step.Beaten? ==> s.file.Some?)
  }

  lemma MoveKeepsLocked(s: State, c: nat, step: Step)
    requires Locked(s) && c in s.callers && !s.callers[c].step.Writing? && !HoldsLock(step)
    ensures Locked(Move(s, c, step))
  {
  }

  lemma AdoptKeepsLocked(s: State, c: nat)
    requires Locked(s) && c in s.callers && !s.callers[c].step.Writing?
    ensures Locked(Adopt(s, c))
  {
    MoveKeepsLocked(s, c, Failed);
    if s.file.Some? { MoveKeepsLocked(s, c, Returned(s.file.value)); }
  }

  /** A call that ends gives up the mutex, with no short file left behind. */
  lemma UnlockKeepsLocked(s: State, c: nat)
    requires Locked(s) && c in s.callers && !HoldsLock(s.callers[c].step) && 0 in s.locks && s.locks[0] == c
    ensures Locked(Unlock(s, c))
  {
  }

  lemma EndingKeepsLocked(s: State, c: nat, step: Step, file: Option<Bytes>)
    requires Locked(s) && c in s.callers && s.callers[c].step.Writing? && !HoldsLock(step)
    requires file.Some? ==> |file.value| == KEY_LEN
    ensures Locked(Unlock(Move(s, c, step), c).(file := file))
  {
  }

  lemma ClosingKeepsLocked(s: State, c: nat, step: Step)
    requires Inv(s) && Locked(s) && Enabled(s, Close(c)) && !HoldsLock(step)
    ensures Locked(Unlock(Move(s, c, step), c))
  {
    CompleteFile(s, c);
    EndingKeepsLocked(s, c, step, s.file);
  }

  lemma LockedStep(s: State, a: Action)
    requires Inv(s) && Locked(s) && Enabled(s, a) && OneProcess(s, [a])
    ensures Locked(Next(s, a))
  {
    assert [a][0] == a;
    match a
    case Call(_, _, _) =>
    case FirstRead(c) =>
      AdoptKeepsLocked(s, c);
      MoveKeepsLocked(s, c, NoFile);
      var at := (s.callers[c].process, s.callers[c].provider);
      if at in s.caches { MoveKeepsLocked(s, c, Returned(s.caches[at])); }
    case Generate(c, key) => MoveKeepsLocked(s, c, Prepared(key));
    case Link(c) =>
      MoveKeepsLocked(s, c, LinkLost);
      MoveKeepsLocked(s, c, Returned(s.callers[c].step.key));
    case RefuseLink(c) => MoveKeepsLocked(s, c, LinkRefused(s.callers[c].step.key));
    case AdoptAfterLink(c) => AdoptKeepsLocked(s, c);
    case TakeLock(c) => TakingKeepsLocked(s, c);
    case CreateExcl(c) => CreatingKeepsLocked(s, c);
    case AdoptUnderLock(c) =>
      AdoptKeepsLocked(s, c);
      UnlockKeepsLocked(Adopt(s, c), c);
    case Write(c, n) => WritingKeepsLocked(s, c, n);
    case Close(c) => ClosingKeepsLocked(s, c, Returned(s.callers[c].step.key));
    case CloseError(c) => ClosingKeepsLocked(s, c, Failed);
    case WriteError(c) => EndingKeepsLocked(s, c, Failed, None);
    case SyncError(c) => EndingKeepsLocked(s, c, Failed, None);
    case OtherError(c) =>
      MoveKeepsLocked(s, c, Failed);
      if HoldsLock(s.callers[c].step) { UnlockKeepsLocked(Move(s, c, Failed), c); }
  }

  lemma TakingKeepsLocked(s: State, c: nat)
    requires Locked(s) && Enabled(s, TakeLock(c))
    ensures Locked(Next(s, TakeLock(c)))
  {
  }

  lemma CreatingKeepsLocked(s: State, c: nat)
    requires Locked(s) && Enabled(s, CreateExcl(c))
    ensures Locked(Next(s, CreateExcl(c)))
  {
  }

  lemma WritingKeepsLocked(s: State, c: nat, n: nat)
    requires Locked(s) && Enabled(s, Write(c, n))
    ensures Locked(Next(s, Write(c, n)))
  {
  }

  lemma {:induction false} LockedOverRuns(s: State, acts: seq<Action>)
    requires Inv(s) && Locked(s) && Runs(s, acts) && SyncErrorFree(acts) && OneProcess(s, acts)
    ensures Inv(Last(s, acts)) && Locked(Last(s, acts))
    decreases |acts|
  {
    if acts != [] {
      assert OneProcess(s, [acts[0]]);
      InvStep(s, acts[0]);
      LockedStep(s, acts[0]);
      assert forall i :: 0 <= i < |acts| - 1 ==> acts[1..][i] == acts[i + 1];
      LockedOverRuns(Next(s, acts[0]), acts[1..]);
    }
  }

  /** Within one process publishMu makes every loser of an exclusive create adopt the winner's key. */
  lemma ExclusiveLoserAdopts(s: State, acts: seq<Action>, c: nat)
    requires Initial(s) && Runs(s, acts) && SyncErrorFree(acts) && OneProcess(s, acts)
    requires Enabled(Last(s, acts), AdoptUnderLock(c))
    ensures var t := Last(s, acts);
      t.file.Some? && Next(t, AdoptUnderLock(c)).callers[c].step == Returned(t.file.value)
  {
    LockedOverRuns(s, acts);
  }

  /** The exclusively created file is not whole yet. */
  ghost predicate WritesShort(step: Step) {
    step.Writing? && step.n < KEY_LEN
  }

  /**
    The mutex does not cover the first read: in one process, a provider without a cached key reports the file corrupt
    exactly if some call has created it and not yet written it whole.
   */
  lemma FirstReadFailsIff(s: State, acts: seq<Action>, c: nat)
    requires Initial(s) && Runs(s, acts) && SyncErrorFree(acts) && OneProcess(s, acts)
    requires var t := Last(s, acts);
      Enabled(t, FirstRead(c)) && (t.callers[c].process, t.callers[c].provider) !in t.caches
    ensures var t := Last(s, acts);
      Next(t, FirstRead(c)).callers[c].step == Failed <==> exists d :: d in t.callers && WritesShort(t.callers[d].step)
  {
    LockedOverRuns(s, acts);
    var t := Last(s, acts);
    if d :| d in t.callers && WritesShort(t.callers[d].step) {
      assert t.file == Some(t.callers[d].step.key[..t.callers[d].step.n]);
    }
  }

  /** Such a run: the first read meets the empty file. */
  lemma FirstReadCanMeetEmptyFile(key: Bytes) returns (s: State, acts: seq<Action>)
    requires |key| == KEY_LEN
    ensures Initial(s) && Runs(s, acts) && SyncErrorFree(acts) && OneProcess(s, acts)
    ensures var t := Last(s, acts); 1 in t.callers && t.callers[1].step == Failed && t.file == Some([])
  {
    s := State(None, map[], map[], map[], {});
    var t := AloneAt(Some([]), Writing(key, 0), true);
    acts := Before(Next(t, Call(1, 0, 1)), FirstRead(1), []);
    acts := Before(t, Call(1, 0, 1), acts);
    acts := CreatesBefore(s, key, acts);
  }
}
