/**
  The local message table as a mirror of one server mailbox, driven by any
  number of sync passes whose store and server calls interleave freely with
  each other, with the server's own changes, with aborts and with lost
  connections.

  One action is one store call or one server answer.  A pass is the sequence
  open, select, clear, anchor, window, fetch, store one row ..., finish; it
  may outlive its connection, since only the select and the fetch need it.
  Standards: sections 2.3.1.1 and 6.4.8 of RFC 3501.
 */
module Mirror {
  import Numbers

  type Uid = nat

  /** `session` is the UIDVALIDITY of the mailbox while the pass's connection had it selected. */
  datatype Pass =
    | Opened(folder: nat)                 // UIDVALIDITY of the folder row as read
    | Selected(folder: nat, claimed: nat, session: nat, empty: bool)  // `claimed` is what it will store
    | Cleared(claimed: nat, session: nat, empty: bool)
    | Anchored(session: nat, empty: bool)
    | Windowed(session: nat, highest: Uid, empty: bool)               // HighestUID read
    | Storing(session: nat, highest: Uid, todo: seq<Uid>)             // FETCH answered, rows still to store

  datatype State = State(
    validity: nat,            // server UIDVALIDITY
    live: set<Uid>,           // server messages
    next: Uid,                // server UIDNEXT
    stored: nat,              // UIDVALIDITY anchor of the folder row, 0 before the first sync
    rows: map<Uid, nat>,      // cached UID -> UIDVALIDITY under which it was fetched
    passes: map<nat, Pass>,
    offline: set<nat>,        // passes that have lost their connection
    idle: bool)               // an IDLE session has the mailbox selected

  datatype Action =
    | Arrive(uid: Uid)
    | Expunge(uid: Uid)
    | Reset(validity: nat, live: set<Uid>, next: Uid)
    | Hangup
    | Open(pass: nat)
    | OpenDelta(pass: nat)
    | Select(pass: nat)
    | Lose(pass: nat)
    | Clear(pass: nat)
    | Anchor(pass: nat)
    | Window(pass: nat, highest: Uid)
    | Fetch(pass: nat, answer: seq<Uid>)
    | StoreRow(pass: nat)
    | Finish(pass: nat, toIdle: bool)
    | Abort(pass: nat)
    | Reconcile
    | DropRow(uid: Uid)

  /** What MAX(uid) answers, 0 for no rows. */
  ghost predicate IsHighest(cached: set<Uid>, h: Uid) {
    && (forall u :: u in cached ==> u <= h)
    && (if cached == {} then h == 0 else h in cached)
  }

  ghost predicate Ascending(s: seq<Uid>) {
    forall i, j :: 0 <= i < j < |s| ==> s[i] < s[j]
  }

  /** The answer to `UID FETCH h+1:*`: the range, or the last message when the range is empty. */
  ghost predicate IsFetchAnswer(live: set<Uid>, h: Uid, answer: seq<Uid>) {
    && Ascending(answer)
    && (forall u :: u in answer ==> u in live)
    && (forall u :: u in live && h < u ==> u in answer)
    && ((exists u :: u in live && h < u) ==> forall u :: u in answer ==> h < u)
  }

  /** The pass holds a stale folder row, so its next store call deletes the rows there are. */
  ghost predicate Wipes(s: State, a: Action) {
    && a.Clear? && a.pass in s.passes && s.passes[a.pass].Selected?
    && s.passes[a.pass].folder != 0 && s.passes[a.pass].folder != s.passes[a.pass].claimed && s.rows != map[]
  }

  /**
    The store call puts rows of one UIDVALIDITY under the name of another: an anchor over rows of another one, or a
    row whose session is not the one anchored.
   */
  ghost predicate Mislabels(s: State, a: Action) {
    match a
    case Anchor(i) => i in s.passes && s.passes[i].Cleared? && s.rows != map[] && s.stored != s.passes[i].claimed
    case StoreRow(i) =>
      && i in s.passes && s.passes[i].Storing? && s.passes[i].todo != []
      && s.passes[i].highest < s.passes[i].todo[0] && s.passes[i].session != s.stored
    case _ => false
  }

  ghost predicate Enabled(s: State, a: Action) {
    match a
    case Arrive(u) => s.next <= u
    case Expunge(u) => u in s.live
    // A UIDVALIDITY change falls between sessions; a pass may have none yet, or none any more.
    case Reset(v, live, next) =>
      && s.validity < v && !s.idle && (forall i :: i in s.passes ==> s.passes[i].Opened? || i in s.offline)
      && 0 < next && forall u :: u in live ==> 0 < u < next
    case Hangup => true
    case Open(i) => i !in s.passes
    case OpenDelta(i) => i !in s.passes && s.idle
    case Select(i) => i in s.passes && s.passes[i].Opened?
    case Lose(i) => i in s.passes && !s.passes[i].Opened?
    case Clear(i) => i in s.passes && s.passes[i].Selected?
    case Anchor(i) => i in s.passes && s.passes[i].Cleared?
    case Window(i, h) => i in s.passes && s.passes[i].Anchored? && IsHighest(s.rows.Keys, h)
    case Fetch(i, answer) =>
      && i in s.passes && i !in s.offline && s.passes[i].Windowed? && !s.passes[i].empty
      && IsFetchAnswer(s.live, s.passes[i].highest, answer)
    case StoreRow(i) => i in s.passes && s.passes[i].Storing? && s.passes[i].todo != []
    case Finish(i, toIdle) =>
      && i in s.passes && (toIdle ==> i !in s.offline)
      && (var p := s.passes[i]; (p.Windowed? && p.empty) || (p.Storing? && p.todo == []))
    case Abort(i) => i in s.passes
    case Reconcile => s.idle
    // A local delete follows the server's: the message has left the folder.
    case DropRow(u) => s.stored == s.validity ==> u !in s.live
  }

  ghost function Next(s: State, a: Action): State
    requires Enabled(s, a)
  {
    match a
    case Arrive(u) => s.(live := s.live + {u}, next := u + 1)
    case Expunge(u) => s.(live := s.live - {u})
    case Reset(v, live, next) => s.(validity := v, live := live, next := next)
    case Hangup => s.(idle := false)
    case Open(i) => Moved(s, i, Opened(s.stored)).(offline := s.offline - {i})
    // The IDLE session reuses its stored anchors and forces the range fetch.
    case OpenDelta(i) =>
      Moved(s, i, Selected(s.stored, s.stored, s.validity, false)).(offline := s.offline - {i})
    case Select(i) =>
      Moved(s, i, Selected(s.passes[i].folder, s.validity, s.validity, s.live == {})).(offline := s.offline - {i})
    case Lose(i) => s.(offline := s.offline + {i})
    case Clear(i) =>
      var p := s.passes[i];
      Moved(s, i, Cleared(p.claimed, p.session, p.empty)).(rows := if Wipes(s, a) then map[] else s.rows)
    case Anchor(i) => Moved(s, i, Anchored(s.passes[i].session, s.passes[i].empty)).(stored := s.passes[i].claimed)
    case Window(i, h) => Moved(s, i, Windowed(s.passes[i].session, h, s.passes[i].empty))
    case Fetch(i, answer) => Moved(s, i, Storing(s.passes[i].session, s.passes[i].highest, answer))
    case StoreRow(i) =>
      var p := s.passes[i];
      var u := p.todo[0];
      Moved(s, i, p.(todo := p.todo[1..])).(rows := if u <= p.highest then s.rows else s.rows[u := p.session])
    case Finish(i, toIdle) => s.(passes := s.passes - {i}, idle := s.idle || toIdle)
    case Abort(i) => s.(passes := s.passes - {i})
    case Reconcile => s.(rows := map u | u in s.rows && u in s.live :: s.rows[u])
    case DropRow(u) => s.(rows := s.rows - {u})
  }

  ghost function Moved(s: State, i: nat, p: Pass): State {
    s.(passes := s.passes[i := p])
  }

  ghost predicate Runs(s: State, acts: seq<Action>)
    decreases |acts|
  {
    acts == [] || (Enabled(s, acts[0]) && Runs(Next(s, acts[0]), acts[1..]))
  }

  ghost function Last(s: State, acts: seq<Action>): State
    requires Runs(s, acts)
    decreases |acts|
  {
    if acts == [] then s else Last(Next(s, acts[0]), acts[1..])
  }

  /** A folder never synced, over any mailbox. */
  ghost predicate Initial(s: State) {
    && 0 < s.validity && 0 < s.next && (forall u :: u in s.live ==> 0 < u < s.next)
    && s.stored == 0 && s.rows == map[] && s.passes == map[] && !s.idle
  }

  // ----- what holds of the cache -----

  /** Every cached row belongs to the stored UIDVALIDITY. */
  ghost predicate OneValidity(s: State) {
    forall u :: u in s.rows ==> s.rows[u] == s.stored
  }

  /** Every server message at or below the highest cached UID is cached. */
  ghost predicate GapFree(live: set<Uid>, cached: set<Uid>) {
    forall u, w :: u in live && w in cached && u <= w ==> u in cached
  }

  /** The guarantee the sync engine resumes on; a cache of an older UIDVALIDITY is cleared, not resumed. */
  ghost predicate Complete(s: State) {
    OneValidity(s) && (s.stored == s.validity ==> GapFree(s.live, s.rows.Keys))
  }

  ghost predicate InSession(s: State, i: nat, session: nat) {
    0 < session <= s.validity && (i !in s.offline ==> session == s.validity)
  }

  ghost predicate PassBound(s: State, i: nat, p: Pass) {
    match p
    case Opened(_) => true
    case Selected(_, c, v, _) => c <= s.validity && InSession(s, i, v)
    case Cleared(c, v, _) => c <= s.validity && InSession(s, i, v)
    case Anchored(v, _) => InSession(s, i, v)
    case Windowed(v, _, _) => InSession(s, i, v)
    case Storing(v, h, todo) =>
      && InSession(s, i, v)
      && (v == s.validity ==> Ascending(todo) && forall u :: u in todo ==> 0 < u < s.next)
  }

  /** Bookkeeping that every honest action keeps, racing clears included. */
  ghost predicate Base(s: State) {
    && OneValidity(s)
    && s.stored <= s.validity && 0 < s.validity && 0 < s.next
    && (s.stored == 0 ==> s.rows == map[])
    && (forall u :: u in s.live ==> 0 < u < s.next)
    && (s.stored == s.validity ==> forall u :: u in s.rows ==> 0 < u < s.next)
    && (forall i :: i in s.passes ==> PassBound(s, i, s.passes[i]))
  }

  /** The cached UIDs, as far as they are the mailbox's own. */
  ghost function Cached(s: State): set<Uid> {
    if s.stored == s.validity then s.rows.Keys else {}
  }

  /** What a pass has yet to fetch and store leaves no live message behind, given the cached UIDs. */
  ghost predicate PassSafe(live: set<Uid>, next: Uid, cached: set<Uid>, p: Pass, online: bool) {
    match p
    case Windowed(_, h, empty) => !empty && online ==> h < next && forall u :: u in live && u <= h ==> u in cached
    case Storing(_, h, todo) =>
      forall t, u :: t in todo && h < t && u in live && u <= t ==> u in cached || (h < u && u in todo)
    case _ => true
  }

  ghost predicate OfMailbox(s: State, p: Pass) {
    !p.Opened? && p.session == s.validity
  }

  /** No pass over the mailbox as it is leaves a message behind. */
  ghost predicate PassesSafe(s: State, cached: set<Uid>) {
    forall i :: i in s.passes && OfMailbox(s, s.passes[i]) ==>
      PassSafe(s.live, s.next, cached, s.passes[i], i !in s.offline)
  }

  /** The exact state condition under which no gap can open (see `NoGapExactly`). */
  ghost predicate NoGap(s: State) {
    GapFree(s.live, Cached(s)) && PassesSafe(s, Cached(s))
  }

  /** Nothing another pass is about to fetch or store would have to rest on the rows a clear is about to delete. */
  ghost predicate ClearIsQuiet(s: State, i: nat) {
    forall j :: j in s.passes && j != i && OfMailbox(s, s.passes[j]) ==>
      match s.passes[j]
      case Windowed(_, h, empty) => empty || j in s.offline || forall u :: u in s.live ==> h < u
      case Storing(_, h, todo) => forall t, u :: t in todo && h < t && u in s.live && u <= t ==> h < u && u in todo
      case _ => true
  }

  /** A window read over rows of another UIDVALIDITY hides no message, present or to come. */
  ghost predicate WindowIsQuiet(s: State, i: nat, h: Uid)
    requires i in s.passes && s.passes[i].Anchored?
  {
    OfMailbox(s, s.passes[i]) && i !in s.offline && !s.passes[i].empty && s.stored != s.validity ==>
      h < s.next && forall u :: u in s.live ==> h < u
  }

  /** The action deletes rows, or reads a window that hides messages. */
  ghost predicate Disturbs(s: State, a: Action)
    requires Enabled(s, a)
  {
    Wipes(s, a) || (a.Window? && !WindowIsQuiet(s, a.pass, a.highest))
  }

  ghost predicate WipeFree(s: State, acts: seq<Action>)
    requires Runs(s, acts)
    decreases |acts|
  {
    acts == [] || (!Wipes(s, acts[0]) && WipeFree(Next(s, acts[0]), acts[1..]))
  }

  /** No store call of the run puts rows of one UIDVALIDITY under the name of another. */
  ghost predicate Honest(s: State, acts: seq<Action>)
    requires Runs(s, acts)
    decreases |acts|
  {
    acts == [] || (!Mislabels(s, acts[0]) && Honest(Next(s, acts[0]), acts[1..]))
  }

  ghost predicate IsQuiet(s: State, a: Action)
    requires Enabled(s, a)
  {
    && (Wipes(s, a) && s.stored == s.validity ==> ClearIsQuiet(s, a.pass))
    && (a.Window? ==> WindowIsQuiet(s, a.pass, a.highest))
  }

  /** Every clear and every window of the run is quiet. */
  ghost predicate QuietRun(s: State, acts: seq<Action>)
    requires Runs(s, acts)
    decreases |acts|
  {
    acts == [] || (IsQuiet(s, acts[0]) && QuietRun(Next(s, acts[0]), acts[1..]))
  }

  /** The run is honest and disturbs nothing. */
  ghost predicate Mild(s: State, acts: seq<Action>)
    requires Runs(s, acts)
    decreases |acts|
  {
    acts == [] || (!Mislabels(s, acts[0]) && !Disturbs(s, acts[0]) && Mild(Next(s, acts[0]), acts[1..]))
  }

  /** No mild continuation ever loses a message. */
  ghost predicate Durable(s: State) {
    forall acts :: Runs(s, acts) && Mild(s, acts) ==> Complete(Last(s, acts))
  }

  // ----- provenance -----

  lemma BaseStep(s: State, a: Action)
    requires Base(s) && Enabled(s, a) && !Mislabels(s, a)
    ensures Base(Next(s, a))
  {
    match a
    case StoreRow(i) => BaseAfterStore(s, i);
    case Reset(_, _, _) => BaseAfterReset(s, a);
    case Clear(i) => BaseAfterClear(s, i);
    case Anchor(i) => BaseAfterAnchor(s, i);
    case Fetch(i, answer) => BaseAfterCall(s, a);
    case Open(i) => BaseAfterCall(s, a);
    case OpenDelta(i) => BaseAfterCall(s, a);
    case Select(i) => BaseAfterCall(s, a);
    case Window(i, h) => BaseAfterCall(s, a);
    case Lose(i) => BaseAfterLoss(s, i);
    case Reconcile => BaseAfterRemoval(s, s.rows.Keys - s.live, Next(s, a));
    case DropRow(u) => BaseAfterRemoval(s, {u}, Next(s, a));
    case Arrive(_) => BaseAfterServer(s, a);
    case Expunge(_) => BaseAfterServer(s, a);
    case Finish(i, toIdle) => BaseAfterEnd(s, i, s.idle || toIdle);
    case Abort(i) => BaseAfterEnd(s, i, s.idle);
    case Hangup =>
  }

  lemma BaseAfterCall(s: State, a: Action)
    requires Base(s) && Enabled(s, a) && (a.Fetch? || a.Open? || a.OpenDelta? || a.Select? || a.Window?)
    ensures Base(Next(s, a))
  {
    match a
    case Fetch(i, answer) =>
      assert PassBound(s, i, s.passes[i]);
      BaseAfterPass(s, i, Storing(s.passes[i].session, s.passes[i].highest, answer));
    case Open(i) => BaseAfterArming(s, i, Opened(s.stored));
    case OpenDelta(i) => BaseAfterArming(s, i, Selected(s.stored, s.stored, s.validity, false));
    case Select(i) => BaseAfterArming(s, i, Selected(s.passes[i].folder, s.validity, s.validity, s.live == {}));
    case Window(i, h) =>
      assert PassBound(s, i, s.passes[i]);
      BaseAfterPass(s, i, Windowed(s.passes[i].session, h, s.passes[i].empty));
  }

  lemma BaseAfterServer(s: State, a: Action)
    requires Base(s) && Enabled(s, a) && (a.Arrive? || a.Expunge?)
    ensures Base(Next(s, a))
  {
  }

  lemma BaseAfterEnd(s: State, i: nat, idle: bool)
    requires Base(s)
    ensures Base(s.(passes := s.passes - {i}, idle := idle))
  {
  }

  lemma BaseAfterLoss(s: State, i: nat)
    requires Base(s)
    ensures Base(s.(offline := s.offline + {i}))
  {
  }

  lemma BaseAfterPass(s: State, i: nat, p: Pass)
    requires Base(s) && PassBound(s, i, p)
    ensures Base(Moved(s, i, p))
  {
  }

  /** A pass whose connection, if it has one, is a new one. */
  lemma BaseAfterArming(s: State, i: nat, p: Pass)
    requires Base(s) && PassBound(s.(offline := s.offline - {i}), i, p)
    ensures Base(Moved(s, i, p).(offline := s.offline - {i}))
  {
  }

  lemma BaseAfterRemoval(s: State, removed: set<Uid>, t: State)
    requires Base(s) && t == s.(rows := t.rows) && t.rows == s.rows - removed
    ensures Base(t)
  {
  }

  lemma BaseAfterStore(s: State, i: nat)
    requires Base(s) && Enabled(s, StoreRow(i)) && !Mislabels(s, StoreRow(i))
    ensures Base(Next(s, StoreRow(i)))
  {
    var p := s.passes[i];
    assert PassBound(s, i, p) && p.todo[0] in p.todo;
    assert forall u :: u in p.todo[1..] ==> u in p.todo;
  }

  lemma BaseAfterReset(s: State, a: Action)
    requires Base(s) && a.Reset? && Enabled(s, a)
    ensures Base(Next(s, a))
  {
    var t := Next(s, a);
    forall i | i in t.passes
      ensures PassBound(t, i, t.passes[i])
    {
      assert PassBound(s, i, s.passes[i]);
    }
  }

  lemma BaseAfterClear(s: State, i: nat)
    requires Base(s) && Enabled(s, Clear(i))
    ensures Base(Next(s, Clear(i)))
  {
    assert PassBound(s, i, s.passes[i]);
  }

  lemma BaseAfterAnchor(s: State, i: nat)
    requires Base(s) && Enabled(s, Anchor(i)) && !Mislabels(s, Anchor(i))
    ensures Base(Next(s, Anchor(i)))
  {
    assert PassBound(s, i, s.passes[i]);
  }

  lemma {:induction false} BaseOverRuns(s: State, acts: seq<Action>)
    requires Base(s) && Runs(s, acts) && Honest(s, acts)
    ensures Base(Last(s, acts))
    decreases |acts|
  {
    if acts != [] {
      BaseStep(s, acts[0]);
      BaseOverRuns(Next(s, acts[0]), acts[1..]);
    }
  }

  /** In every honest run of any passes, resets and aborts, every cached row belongs to the stored UIDVALIDITY. */
  lemma EveryRowBelongsToTheStoredValidity(s: State, acts: seq<Action>)
    requires Initial(s) && Runs(s, acts) && Honest(s, acts)
    ensures OneValidity(Last(s, acts))
  {
    BaseOverRuns(s, acts);
  }

  /** No honest continuation ever mixes the rows of two UIDVALIDITYs. */
  ghost predicate StaysValid(s: State) {
    forall acts :: Runs(s, acts) && Honest(s, acts) ==> OneValidity(Last(s, acts))
  }

  lemma ValidStaysValid(s: State)
    requires Base(s)
    ensures StaysValid(s)
  {
    forall acts | Runs(s, acts) && Honest(s, acts)
      ensures OneValidity(Last(s, acts))
    {
      BaseOverRuns(s, acts);
    }
  }

  lemma MixedIsMixed(s: State, u: Uid)
    requires u in s.rows && s.rows[u] != s.stored
    ensures !StaysValid(s)
  {
    assert Runs(s, []) && Honest(s, []) && Last(s, []) == s;
  }

  /**
    An anchor keeps every row under its own UIDVALIDITY, then and in every honest run on, if and only if the rows there
    are, if any, already go by the UIDVALIDITY it stores; the code does not check.
   */
  lemma AnchorKeepsValidityIff(s: State, i: nat)
    requires Base(s) && Enabled(s, Anchor(i))
    ensures StaysValid(Next(s, Anchor(i))) <==> s.rows == map[] || s.stored == s.passes[i].claimed
  {
    if Mislabels(s, Anchor(i)) {
      var u :| u in s.rows;
      MixedIsMixed(Next(s, Anchor(i)), u);
    } else {
      BaseStep(s, Anchor(i));
      ValidStaysValid(Next(s, Anchor(i)));
    }
  }

  /**
    So does storing a row, if and only if the row is one already cached or the UIDVALIDITY of the pass's session is
    still the one anchored; the code does not check.
   */
  lemma StoreKeepsValidityIff(s: State, i: nat)
    requires Base(s) && Enabled(s, StoreRow(i))
    ensures StaysValid(Next(s, StoreRow(i)))
      <==> s.passes[i].todo[0] <= s.passes[i].highest || s.passes[i].session == s.stored
  {
    if Mislabels(s, StoreRow(i)) {
      MixedIsMixed(Next(s, StoreRow(i)), s.passes[i].todo[0]);
    } else {
      BaseStep(s, StoreRow(i));
      ValidStaysValid(Next(s, StoreRow(i)));
    }
  }

  // ----- when runs are honest -----

  /** No pass of the run outlives its session over a reset, nor holds over it a row read before the first sync. */
  ghost predicate SettledResets(s: State, acts: seq<Action>)
    requires Runs(s, acts)
    decreases |acts|
  {
    acts == [] ||
    (&& (acts[0].Reset? ==> forall i :: i in s.passes ==> s.passes[i].Opened? && s.passes[i].folder != 0)
     && SettledResets(Next(s, acts[0]), acts[1..]))
  }

  ghost predicate SettledPass(s: State, p: Pass) {
    && (!p.Opened? ==> p.session == s.validity)
    && match p
       case Opened(f) => f <= s.stored && (f == 0 ==> s.stored == 0 || s.stored == s.validity)
       case Selected(f, c, _, _) =>
         c == s.validity && f <= s.stored && (f == 0 ==> s.stored == 0 || s.stored == s.validity)
       case Cleared(c, _, _) => c == s.validity && (s.stored == s.validity || s.rows == map[])
       case _ => s.stored == s.validity
  }

  /** What settled resets keep: a pass past its anchor works on the mailbox as it is. */
  ghost predicate Settled(s: State) {
    (s.idle ==> s.stored == s.validity) && forall i :: i in s.passes ==> SettledPass(s, s.passes[i])
  }

  lemma SettledStep(s: State, a: Action)
    requires Base(s) && Settled(s) && Enabled(s, a)
    requires a.Reset? ==> forall i :: i in s.passes ==> s.passes[i].Opened? && s.passes[i].folder != 0
    ensures !Mislabels(s, a) && (a.Window? ==> WindowIsQuiet(s, a.pass, a.highest))
    ensures Settled(Next(s, a))
  {
    SettledIsHonest(s, a);
    if a.Select? || a.Lose? || a.Clear? || a.Anchor? || a.Window? || a.Fetch? || a.StoreRow? || a.Finish? {
      assert SettledPass(s, s.passes[a.pass]);
    }
  }

  lemma SettledIsHonest(s: State, a: Action)
    requires Base(s) && Settled(s) && Enabled(s, a)
    ensures !Mislabels(s, a) && (a.Window? ==> WindowIsQuiet(s, a.pass, a.highest))
  {
    if a.Anchor? || a.StoreRow? || a.Window? { assert SettledPass(s, s.passes[a.pass]); }
  }

  /** Every clear of the run is quiet. */
  ghost predicate QuietClears(s: State, acts: seq<Action>)
    requires Runs(s, acts)
    decreases |acts|
  {
    acts == [] ||
    (&& (Wipes(s, acts[0]) && s.stored == s.validity ==> ClearIsQuiet(s, acts[0].pass))
     && QuietClears(Next(s, acts[0]), acts[1..]))
  }

  lemma {:induction false} SettledResetsAreHonest(s: State, acts: seq<Action>)
    requires Base(s) && Settled(s) && Runs(s, acts) && SettledResets(s, acts)
    ensures Honest(s, acts) && (QuietClears(s, acts) ==> QuietRun(s, acts))
    decreases |acts|
  {
    if acts != [] {
      SettledStep(s, acts[0]);
      BaseStep(s, acts[0]);
      SettledResetsAreHonest(Next(s, acts[0]), acts[1..]);
    }
  }

  // ----- completeness -----

  lemma NoGapStep(s: State, a: Action)
    requires Base(s) && NoGap(s) && Enabled(s, a) && !Mislabels(s, a) && IsQuiet(s, a)
    ensures NoGap(Next(s, a))
  {
    match a
    case StoreRow(i) => StoreRowKeepsNoGap(s, i);
    case Clear(i) => ClearKeepsNoGap(s, i);
    case Anchor(i) => AnchorKeepsNoGap(s, i);
    case Window(i, h) => WindowKeepsNoGap(s, i, h);
    case Fetch(i, answer) => FetchKeepsNoGap(s, i, answer);
    case Reset(_, _, _) => ResetKeepsNoGap(s, a);
    case Reconcile => RemovalKeepsNoGap(s, a);
    case DropRow(_) => RemovalKeepsNoGap(s, a);
    case Arrive(_) => ServerKeepsNoGap(s, a);
    case Expunge(_) => ServerKeepsNoGap(s, a);
    case _ => PassKeepsNoGap(s, a);
  }

  lemma PassKeepsNoGap(s: State, a: Action)
    requires NoGap(s) && Enabled(s, a)
    requires a.Open? || a.OpenDelta? || a.Select? || a.Lose? || a.Finish? || a.Abort? || a.Hangup?
    ensures NoGap(Next(s, a))
  {
  }

  lemma ServerKeepsNoGap(s: State, a: Action)
    requires Base(s) && NoGap(s) && Enabled(s, a) && (a.Arrive? || a.Expunge?)
    ensures NoGap(Next(s, a))
  {
    var t := Next(s, a);
    forall i | i in t.passes && OfMailbox(t, t.passes[i])
      ensures PassSafe(t.live, t.next, Cached(t), t.passes[i], i !in t.offline)
    {
      assert PassBound(s, i, s.passes[i]) && PassSafe(s.live, s.next, Cached(s), s.passes[i], i !in s.offline);
    }
  }

  lemma ResetKeepsNoGap(s: State, a: Action)
    requires Base(s) && Enabled(s, a) && a.Reset?
    ensures NoGap(Next(s, a))
  {
    forall i | i in s.passes
      ensures !OfMailbox(Next(s, a), s.passes[i])
    {
      assert PassBound(s, i, s.passes[i]);
    }
  }

  lemma RemovalKeepsNoGap(s: State, a: Action)
    requires NoGap(s) && Enabled(s, a) && (a.Reconcile? || a.DropRow?)
    ensures NoGap(Next(s, a))
  {
    var t := Next(s, a);
    assert s.stored == s.validity ==> forall u :: u in s.live && u in s.rows ==> u in t.rows;
    forall i | i in t.passes && OfMailbox(t, t.passes[i])
      ensures PassSafe(t.live, t.next, Cached(t), t.passes[i], i !in t.offline)
    {
      assert PassSafe(s.live, s.next, Cached(s), s.passes[i], i !in s.offline);
    }
  }

  lemma WindowKeepsNoGap(s: State, i: nat, h: Uid)
    requires Base(s) && NoGap(s) && Enabled(s, Window(i, h)) && WindowIsQuiet(s, i, h)
    ensures NoGap(Next(s, Window(i, h)))
  {
    var t := Next(s, Window(i, h));
    assert OfMailbox(t, t.passes[i]) ==> PassSafe(t.live, t.next, Cached(t), t.passes[i], i !in t.offline);
  }

  lemma FetchKeepsNoGap(s: State, i: nat, answer: seq<Uid>)
    requires Base(s) && NoGap(s) && Enabled(s, Fetch(i, answer))
    ensures NoGap(Next(s, Fetch(i, answer)))
  {
    assert PassBound(s, i, s.passes[i]);
    assert PassSafe(s.live, s.next, Cached(s), s.passes[i], true);
  }

  lemma ClearKeepsNoGap(s: State, i: nat)
    requires Base(s) && NoGap(s) && Enabled(s, Clear(i))
    requires Wipes(s, Clear(i)) && s.stored == s.validity ==> ClearIsQuiet(s, i)
    ensures NoGap(Next(s, Clear(i)))
  {
    var t := Next(s, Clear(i));
    if Wipes(s, Clear(i)) && s.stored == s.validity {
      forall j | j in t.passes && OfMailbox(t, t.passes[j])
        ensures PassSafe(t.live, t.next, {}, t.passes[j], j !in t.offline)
      {
        if j != i { assert PassSafe(s.live, s.next, Cached(s), s.passes[j], j !in s.offline); }
      }
    }
  }

  /** An honest anchor leaves the mailbox's own cached UIDs what they are. */
  lemma AnchorKeepsNoGap(s: State, i: nat)
    requires NoGap(s) && Enabled(s, Anchor(i)) && !Mislabels(s, Anchor(i))
    ensures NoGap(Next(s, Anchor(i)))
  {
    assert Cached(Next(s, Anchor(i))) == Cached(s);
  }

  lemma StoreRowKeepsNoGap(s: State, i: nat)
    requires Base(s) && NoGap(s) && Enabled(s, StoreRow(i)) && !Mislabels(s, StoreRow(i))
    ensures NoGap(Next(s, StoreRow(i)))
  {
    var p := s.passes[i];
    var t := Next(s, StoreRow(i));
    assert PassBound(s, i, p);
    if OfMailbox(s, p) {
      StoreRowFillsGap(s, i);
    } else {
      assert Cached(t) == Cached(s);
    }
    forall j | j in t.passes && OfMailbox(t, t.passes[j])
      ensures PassSafe(t.live, t.next, Cached(t), t.passes[j], j !in t.offline)
    {
      if j != i { assert PassSafe(s.live, s.next, Cached(s), s.passes[j], j !in s.offline); }
    }
  }

  lemma StoreRowFillsGap(s: State, i: nat)
    requires Base(s) && NoGap(s) && Enabled(s, StoreRow(i)) && !Mislabels(s, StoreRow(i)) && OfMailbox(s, s.passes[i])
    ensures var t := Next(s, StoreRow(i));
      && Cached(s) <= Cached(t) && GapFree(t.live, Cached(t))
      && PassSafe(t.live, t.next, Cached(t), t.passes[i], i !in t.offline)
  {
    var p := s.passes[i];
    var t := Next(s, StoreRow(i));
    assert PassBound(s, i, p) && PassSafe(s.live, s.next, Cached(s), p, i !in s.offline);
    var u := p.todo[0];
    if u <= p.highest {
      assert Cached(t) == Cached(s);
      SkippedStaysSafe(s.live, s.next, Cached(s), p, i !in s.offline);
    } else {
      assert Cached(t) == Cached(s) + {u};
      StoredStaysSafe(s.live, s.next, Cached(s), p, i !in s.offline);
    }
  }

  lemma SkippedStaysSafe(live: set<Uid>, next: Uid, cached: set<Uid>, p: Pass, online: bool)
    requires p.Storing? && p.todo != [] && p.todo[0] <= p.highest && PassSafe(live, next, cached, p, online)
    ensures PassSafe(live, next, cached, p.(todo := p.todo[1..]), online)
  {
    assert forall u :: u in p.todo ==> u == p.todo[0] || u in p.todo[1..];
    assert forall u :: u in p.todo[1..] ==> u in p.todo;
  }

  lemma StoredStaysSafe(live: set<Uid>, next: Uid, cached: set<Uid>, p: Pass, online: bool)
    requires p.Storing? && p.todo != [] && p.highest < p.todo[0] && Ascending(p.todo)
    requires GapFree(live, cached) && PassSafe(live, next, cached, p, online)
    ensures GapFree(live, cached + {p.todo[0]})
    ensures PassSafe(live, next, cached + {p.todo[0]}, p.(todo := p.todo[1..]), online)
  {
    assert p.todo[0] in p.todo;
    assert forall u :: u in p.todo ==> u == p.todo[0] || u in p.todo[1..];
    assert forall t :: t in p.todo[1..] ==> t in p.todo && p.todo[0] < t;
    forall u, w | u in live && w in cached + {p.todo[0]} && u <= w
      ensures u in cached + {p.todo[0]}
    {
    }
  }

  lemma {:induction false} NoGapOverRuns(s: State, acts: seq<Action>)
    requires Base(s) && NoGap(s) && Runs(s, acts) && Honest(s, acts) && QuietRun(s, acts)
    ensures NoGap(Last(s, acts))
    decreases |acts|
  {
    if acts != [] {
      BaseStep(s, acts[0]);
      NoGapStep(s, acts[0]);
      NoGapOverRuns(Next(s, acts[0]), acts[1..]);
    }
  }

  lemma {:induction false} MildIsQuiet(s: State, acts: seq<Action>)
    requires Runs(s, acts) && Mild(s, acts)
    ensures Honest(s, acts) && QuietRun(s, acts)
    decreases |acts|
  {
    if acts != [] {
      MildIsQuiet(Next(s, acts[0]), acts[1..]);
    }
  }

  /**
    Main result: over every honest run whose clears and windows are quiet, every cached row belongs to the stored
    UIDVALIDITY and every server message at or below HighestUID is cached.
   */
  lemma QuietRunsLeaveNoGap(s: State, acts: seq<Action>)
    requires Initial(s) && Runs(s, acts) && Honest(s, acts) && QuietRun(s, acts)
    ensures Complete(Last(s, acts))
    ensures Base(Last(s, acts)) && NoGap(Last(s, acts))
  {
    BaseOverRuns(s, acts);
    NoGapOverRuns(s, acts);
  }

  /** In particular if no pass outlives its session over a reset, nor holds over it a row read before the first sync. */
  lemma SettledRunsLeaveNoGap(s: State, acts: seq<Action>)
    requires Initial(s) && Runs(s, acts) && SettledResets(s, acts) && QuietClears(s, acts)
    ensures Complete(Last(s, acts))
  {
    SettledResetsAreHonest(s, acts);
    QuietRunsLeaveNoGap(s, acts);
  }

  /** Hence a resumed pass is answered with every message the cache lacks. */
  lemma ResumeSkipsNothing(s: State, acts: seq<Action>, h: Uid, answer: seq<Uid>, u: Uid)
    requires Initial(s) && Runs(s, acts) && Honest(s, acts) && QuietRun(s, acts)
    requires var t := Last(s, acts);
      t.stored == t.validity && IsHighest(t.rows.Keys, h) && IsFetchAnswer(t.live, h, answer)
    ensures var t := Last(s, acts); u in t.live && u !in t.rows ==> h < u && u in answer
  {
    QuietRunsLeaveNoGap(s, acts);
  }

  // ----- the exact condition -----

  lemma Prefixed(s: State, a: Action, acts: seq<Action>)
    requires Enabled(s, a) && !Disturbs(s, a) && !Mislabels(s, a)
    requires Runs(Next(s, a), acts) && Mild(Next(s, a), acts)
    ensures Runs(s, [a] + acts) && Mild(s, [a] + acts)
    ensures Last(s, [a] + acts) == Last(Next(s, a), acts)
  {
    assert ([a] + acts)[1..] == acts;
  }

  ghost predicate Fails(s: State, acts: seq<Action>) {
    Runs(s, acts) && Mild(s, acts) && !Complete(Last(s, acts))
  }

  /** A pass that still stores `t` above an uncached message it will not store opens a gap by running on. */
  lemma {:induction false} StoringOpensGap(s: State, i: nat, t: Uid, u: Uid) returns (acts: seq<Action>)
    requires Base(s) && s.stored == s.validity && i in s.passes && s.passes[i].Storing? && OfMailbox(s, s.passes[i])
    requires var p := s.passes[i]; t in p.todo && p.highest < t && (p.highest < u ==> u !in p.todo)
    requires u in s.live && u <= t && u !in s.rows
    ensures Fails(s, acts)
    decreases |s.passes[i].todo|
  {
    var a := StoreRow(i);
    var p := s.passes[i];
    var s' := Next(s, a);
    BaseStep(s, a);
    if p.todo[0] == t {
      assert u in s'.live && t in s'.rows && u !in s'.rows;
      acts := [];
    } else {
      acts := StoringOpensGap(s', i, t, u);
    }
    Prefixed(s, a, acts);
    acts := [a] + acts;
  }

  lemma {:induction false} SortedUids(uids: set<Uid>) returns (r: seq<Uid>)
    ensures Ascending(r) && forall u :: u in r <==> u in uids
    decreases |uids|
  {
    if uids == {} {
      r := [];
    } else {
      var m := Numbers.Largest(uids);
      var below := SortedUids(uids - {m});
      assert forall i :: 0 <= i < |below| ==> below[i] in below;
      r := below + [m];
    }
  }

  /** A pass that has read its window above a message that is, or comes, uncached opens a gap at a later arrival. */
  lemma WindowedOpensGap(s: State, i: nat, u: Uid) returns (acts: seq<Action>)
    requires Base(s) && s.stored == s.validity && i in s.passes && i !in s.offline
    requires s.passes[i].Windowed? && !s.passes[i].empty && OfMailbox(s, s.passes[i])
    requires u in s.live && u <= s.passes[i].highest && u !in s.rows
    ensures Fails(s, acts)
  {
    var h := s.passes[i].highest;
    var top := if h < s.next then s.next else h + 1;
    var arrive := Arrive(top);
    var s1 := Next(s, arrive);
    var answer := SortedUids(set v | v in s1.live && h < v);
    assert top in s1.live && h < top;
    var fetch := Fetch(i, answer);
    var s2 := Next(s1, fetch);
    BaseStep(s, arrive);
    BaseStep(s1, fetch);
    acts := StoringOpensGap(s2, i, top, u);
    Prefixed(s1, fetch, acts);
    Prefixed(s, arrive, [fetch] + acts);
    acts := [arrive] + ([fetch] + acts);
  }

  /** With the mailbox's own UIDVALIDITY anchored, an unsafe pass opens a gap. */
  lemma UnsafeOpensGap(s: State, i: nat) returns (acts: seq<Action>)
    requires Base(s) && s.stored == s.validity && i in s.passes && OfMailbox(s, s.passes[i])
    requires !PassSafe(s.live, s.next, s.rows.Keys, s.passes[i], i !in s.offline)
    ensures Fails(s, acts)
  {
    match s.passes[i]
    case Windowed(_, h, _) =>
      if h < s.next {
        var u :| u in s.live && u <= h && u !in s.rows.Keys;
        acts := WindowedOpensGap(s, i, u);
      } else {
        var a := Arrive(s.next);
        BaseStep(s, a);
        assert s.next !in s.rows;
        acts := WindowedOpensGap(Next(s, a), i, s.next);
        Prefixed(s, a, acts);
        acts := [a] + acts;
      }
    case Storing(_, h, todo) =>
      var t, u :| t in todo && h < t && u in s.live && u <= t && !(u in s.rows.Keys || (h < u && u in todo));
      acts := StoringOpensGap(s, i, t, u);
  }

  /** Rows of another UIDVALIDITY can all be dropped. */
  lemma {:induction false} DropAll(s: State, fails: State) returns (acts: seq<Action>)
    requires Base(s) && s.stored != s.validity && fails == s.(rows := map[])
    requires exists rest :: Fails(fails, rest)
    ensures Fails(s, acts)
    decreases |s.rows|
  {
    if s.rows == map[] {
      acts :| Fails(fails, acts);
    } else {
      var u :| u in s.rows;
      var a := DropRow(u);
      BaseStep(s, a);
      assert |s.rows - {u}| < |s.rows| by {
        assert (s.rows - {u}).Keys == s.rows.Keys - {u};
        assert |s.rows.Keys - {u}| < |s.rows.Keys|;
      }
      var rest := DropAll(Next(s, a), fails);
      Prefixed(s, a, rest);
      acts := [a] + rest;
    }
  }

  /** And then a fresh pass anchors the mailbox's own. */
  lemma Reanchored(s: State, i: nat) returns (acts: seq<Action>)
    requires Base(s) && s.stored != s.validity && s.rows == map[] && i in s.passes && OfMailbox(s, s.passes[i])
    requires !PassSafe(s.live, s.next, {}, s.passes[i], i !in s.offline)
    ensures Fails(s, acts)
  {
    var k := Numbers.Unused(s.passes.Keys);
    var s1 := Next(s, Open(k));
    BaseStep(s, Open(k));
    BaseStep(s1, Select(k));
    acts := AnchorsAgain(Next(s1, Select(k)), k, i);
    Prefixed(s1, Select(k), acts);
    acts := [Select(k)] + acts;
    Prefixed(s, Open(k), acts);
    acts := [Open(k)] + acts;
  }

  lemma AnchorsAgain(s: State, k: nat, i: nat) returns (acts: seq<Action>)
    requires Base(s) && s.rows == map[] && i in s.passes && k in s.passes && k != i && OfMailbox(s, s.passes[i])
    requires s.passes[k].Selected? && s.passes[k].claimed == s.validity
    requires !PassSafe(s.live, s.next, {}, s.passes[i], i !in s.offline)
    ensures Fails(s, acts)
  {
    var s1 := Next(s, Clear(k));
    BaseStep(s, Clear(k));
    var s2 := Next(s1, Anchor(k));
    BaseStep(s1, Anchor(k));
    assert s2.passes[i] == s.passes[i] && s2.rows.Keys == {};
    acts := UnsafeOpensGap(s2, i);
    Prefixed(s1, Anchor(k), acts);
    acts := [Anchor(k)] + acts;
    Prefixed(s, Clear(k), acts);
    acts := [Clear(k)] + acts;
  }

  lemma GapOpens(s: State) returns (acts: seq<Action>)
    requires Base(s) && !NoGap(s)
    ensures Fails(s, acts)
  {
    if !GapFree(s.live, Cached(s)) {
      acts := [];
    } else {
      var i :| i in s.passes && OfMailbox(s, s.passes[i])
        && !PassSafe(s.live, s.next, Cached(s), s.passes[i], i !in s.offline);
      if s.stored == s.validity {
        acts := UnsafeOpensGap(s, i);
      } else {
        var t := s.(rows := map[]);
        BaseAfterRemoval(s, s.rows.Keys, t);
        var rest := Reanchored(t, i);
        acts := DropAll(s, t);
      }
    }
  }

  /** NoGap is not merely inductive: it holds exactly where no mild continuation loses mail. */
  lemma NoGapExactly(s: State)
    requires Base(s)
    ensures NoGap(s) <==> Durable(s)
  {
    if NoGap(s) {
      forall acts | Runs(s, acts) && Mild(s, acts)
        ensures Complete(Last(s, acts))
      {
        MildIsQuiet(s, acts);
        BaseOverRuns(s, acts);
        NoGapOverRuns(s, acts);
      }
    } else {
      var acts := GapOpens(s);
    }
  }

  /**
    A pass that read the folder row before another pass anchored the new UIDVALIDITY deletes that pass's rows.
    The delete is harmless if and only if it is quiet; the code does not check.
   */
  lemma ClearIsHarmlessIffQuiet(s: State, i: nat)
    requires Base(s) && NoGap(s) && Enabled(s, Clear(i)) && Wipes(s, Clear(i)) && s.stored == s.validity
    ensures ClearIsQuiet(s, i) <==> Durable(Next(s, Clear(i)))
  {
    var t := Next(s, Clear(i));
    BaseStep(s, Clear(i));
    NoGapExactly(t);
    if ClearIsQuiet(s, i) {
      ClearKeepsNoGap(s, i);
    } else {
      LoudClearIsUnsafe(s, i);
    }
  }

  lemma LoudClearIsUnsafe(s: State, i: nat)
    requires Enabled(s, Clear(i)) && Wipes(s, Clear(i)) && s.stored == s.validity && !ClearIsQuiet(s, i)
    ensures !NoGap(Next(s, Clear(i)))
  {
    var t := Next(s, Clear(i));
    var j :| j in s.passes && j != i && OfMailbox(s, s.passes[j]) &&
      match s.passes[j]
      case Windowed(_, h, empty) => !empty && j !in s.offline && exists u :: u in s.live && u <= h
      case Storing(_, h, todo) => exists t, u :: t in todo && h < t && u in s.live && u <= t && !(h < u && u in todo)
      case _ => false;
    assert t.passes[j] == s.passes[j] && Cached(t) == {};
    assert !PassSafe(t.live, t.next, Cached(t), t.passes[j], j !in t.offline);
  }

  /** Reading the window is harmless if and only if it is quiet, too. */
  lemma WindowIsHarmlessIffQuiet(s: State, i: nat, h: Uid)
    requires Base(s) && NoGap(s) && Enabled(s, Window(i, h))
    ensures WindowIsQuiet(s, i, h) <==> Durable(Next(s, Window(i, h)))
  {
    var t := Next(s, Window(i, h));
    BaseStep(s, Window(i, h));
    NoGapExactly(t);
    if WindowIsQuiet(s, i, h) {
      WindowKeepsNoGap(s, i, h);
    } else {
      assert OfMailbox(t, t.passes[i]) && !PassSafe(t.live, t.next, {}, t.passes[i], true);
    }
  }

  /**
    Any other removal of rows, an inventory answered before the delete included: harmless if and only if what
    remains is gap-free and no pass in flight rests on a removed row.
   */
  lemma RemovalIsHarmlessIff(s: State, removed: set<Uid>)
    requires Base(s) && s.stored == s.validity
    ensures var t := s.(rows := s.rows - removed);
      Durable(t) <==> GapFree(s.live, s.rows.Keys - removed) && PassesSafe(s, s.rows.Keys - removed)
  {
    var t := s.(rows := s.rows - removed);
    assert t.rows.Keys == s.rows.Keys - removed;
    BaseAfterRemoval(s, removed, t);
    NoGapExactly(t);
    assert PassesSafe(t, Cached(t)) <==> PassesSafe(s, Cached(t));
  }

  /** The race itself, from a folder synced empty under UIDVALIDITY 1 and reset by the server with messages 1 and 2. */
  lemma TwoPassesAfterResetLoseMail() returns (s: State, acts: seq<Action>)
    ensures Initial(s) && Runs(s, acts)
    ensures var t := Last(s, acts);
      t.passes == map[] && t.stored == t.validity == 2 && t.rows == map[2 := 2] && 1 in t.live
  {
    s := State(1, {}, 1, 0, map[], map[], {}, false);
    var before := SyncedEmptyThenReset(s);
    var t := Last(s, before);
    var race := RacingClear(t);
    RunsConcat(s, before, race);
    acts := before + race;
  }

  lemma SyncedEmptyThenReset(s: State) returns (acts: seq<Action>)
    requires s == State(1, {}, 1, 0, map[], map[], {}, false)
    ensures Runs(s, acts) && Last(s, acts) == State(2, {1, 2}, 3, 1, map[], map[], {}, false)
  {
    var a1, s1 := Snoc(s, [], Open(0));
    var a2, s2 := Snoc(s, a1, Select(0));
    var a3, s3 := Snoc(s, a2, Clear(0));
    var a4, s4 := Snoc(s, a3, Anchor(0));
    var a5, s5 := SyncedEmptyTail(s4);
    RunsConcat(s, a4, a5);
    acts := a4 + a5;
  }

  lemma SyncedEmptyTail(s: State) returns (acts: seq<Action>, t: State)
    requires s == State(1, {}, 1, 1, map[], map[0 := Anchored(1, true)], {}, false)
    ensures Runs(s, acts) && t == Last(s, acts) == State(2, {1, 2}, 3, 1, map[], map[], {}, false)
  {
    var a1, s1 := Snoc(s, [], Window(0, 0));
    var a2, s2 := Snoc(s, a1, Finish(0, false));
    assert s2 == State(1, {}, 1, 1, map[], map[], {}, false);
    var a3, s3 := Snoc(s, a2, Reset(2, {1, 2}, 3));
    acts, t := a3, s3;
  }

  lemma RacingClear(s: State) returns (acts: seq<Action>)
    requires s == State(2, {1, 2}, 3, 1, map[], map[], {}, false)
    ensures Runs(s, acts)
    ensures Last(s, acts) == State(2, {1, 2}, 3, 2, map[2 := 2], map[], {}, false)
  {
    var selected := BothSelect(s);
    var s1 := Last(s, selected);
    var fetched := FirstPassFetches(s1);
    var s2 := Last(s1, fetched);
    var raced := SecondPassClears(s2);
    RunsConcat(s1, fetched, raced);
    RunsConcat(s, selected, fetched + raced);
    acts := selected + (fetched + raced);
  }

  lemma BothSelect(s: State) returns (acts: seq<Action>)
    requires s == State(2, {1, 2}, 3, 1, map[], map[], {}, false)
    ensures Runs(s, acts)
    ensures Last(s, acts) ==
      State(2, {1, 2}, 3, 1, map[], map[1 := Selected(1, 2, 2, false), 2 := Selected(1, 2, 2, false)], {}, false)
  {
    var a1, s1 := Snoc(s, [], Open(1));
    var a2, s2 := Snoc(s, a1, Select(1));
    var a3, s3 := Snoc(s, a2, Open(2));
    var a4, s4 := Snoc(s, a3, Select(2));
    acts := a4;
  }

  lemma FirstPassFetches(s: State) returns (acts: seq<Action>)
    requires s ==
      State(2, {1, 2}, 3, 1, map[], map[1 := Selected(1, 2, 2, false), 2 := Selected(1, 2, 2, false)], {}, false)
    ensures Runs(s, acts)
    ensures Last(s, acts) ==
      State(2, {1, 2}, 3, 2, map[], map[1 := Storing(2, 0, [1, 2]), 2 := Selected(1, 2, 2, false)], {}, false)
  {
    var a1, s1 := Snoc(s, [], Clear(1));
    var a2, s2 := Snoc(s, a1, Anchor(1));
    var a3, s3 := Snoc(s, a2, Window(1, 0));
    var a4, s4 := Snoc(s, a3, Fetch(1, [1, 2]));
    acts := a4;
  }

  lemma SecondPassClears(s: State) returns (acts: seq<Action>)
    requires s ==
      State(2, {1, 2}, 3, 2, map[], map[1 := Storing(2, 0, [1, 2]), 2 := Selected(1, 2, 2, false)], {}, false)
    ensures Runs(s, acts)
    ensures Last(s, acts) == State(2, {1, 2}, 3, 2, map[2 := 2], map[], {}, false)
  {
    var a1, s1 := Snoc(s, [], StoreRow(1));
    var a2, s2 := Snoc(s, a1, Clear(2));
    var a3, s3 := Snoc(s, a2, StoreRow(1));
    assert s3.rows == map[2 := 2];
    var a4, s4 := Snoc(s, a3, Finish(1, false));
    var a5, s5 := Snoc(s, a4, Abort(2));
    acts := a5;
  }

  /**
    The premise on anchors is needed.  A command reads the row of a folder never synced; its first run syncs part of
    the folder and fails; the server resets; the rerun, with the row it still holds, clears nothing and labels the
    old row with the new UIDVALIDITY.  No row is ever deleted in this run.
   */
  lemma RerunAfterResetMislabels() returns (s: State, acts: seq<Action>)
    ensures Initial(s) && Runs(s, acts) && WipeFree(s, acts) && !Honest(s, acts)
    ensures var t := Last(s, acts); t.stored == t.validity == 2 && t.rows == map[5 := 1] && 1 in t.live
    ensures !OneValidity(Last(s, acts)) && !GapFree(Last(s, acts).live, Last(s, acts).rows.Keys)
  {
    s := State(1, {5}, 6, 0, map[], map[], {}, false);
    var first := FailedFirstRun(s);
    var t := Last(s, first);
    var rerun := RerunOnOldRow(t);
    RunsConcat(s, first, rerun);
    WipeFreeConcat(s, first, rerun);
    acts := first + rerun;
    var end := Last(s, acts);
    assert end.rows == map[5 := 1];
    assert 5 in end.rows && end.rows[5] != end.stored;
    if Honest(s, acts) {
      EveryRowBelongsToTheStoredValidity(s, acts);
    }
  }

  lemma FailedFirstRun(s: State) returns (acts: seq<Action>)
    requires s == State(1, {5}, 6, 0, map[], map[], {}, false)
    ensures Runs(s, acts) && WipeFree(s, acts)
    ensures Last(s, acts) == State(2, {1}, 2, 1, map[5 := 1], map[1 := Opened(0)], {}, false)
  {
    var a1, s1 := WipeFreeSnoc(s, [], Open(1));
    var a2, s2 := WipeFreeSnoc(s, a1, Open(0));
    var a3, s3 := WipeFreeSnoc(s, a2, Select(0));
    var a4, s4 := WipeFreeSnoc(s, a3, Clear(0));
    assert s4 == State(1, {5}, 6, 0, map[], map[0 := Cleared(1, 1, false), 1 := Opened(0)], {}, false);
    var rest := FirstRunStores(s4);
    RunsConcat(s, a4, rest);
    WipeFreeConcat(s, a4, rest);
    acts := a4 + rest;
  }

  lemma FirstRunStores(s: State) returns (acts: seq<Action>)
    requires s == State(1, {5}, 6, 0, map[], map[0 := Cleared(1, 1, false), 1 := Opened(0)], {}, false)
    ensures Runs(s, acts) && WipeFree(s, acts)
    ensures Last(s, acts) == State(2, {1}, 2, 1, map[5 := 1], map[1 := Opened(0)], {}, false)
  {
    var a1, s1 := WipeFreeSnoc(s, [], Anchor(0));
    var a2, s2 := WipeFreeSnoc(s, a1, Window(0, 0));
    var a3, s3 := WipeFreeSnoc(s, a2, Fetch(0, [5]));
    var rest := FirstRunFails(s3);
    RunsConcat(s, a3, rest);
    WipeFreeConcat(s, a3, rest);
    acts := a3 + rest;
  }

  lemma FirstRunFails(s: State) returns (acts: seq<Action>)
    requires s == State(1, {5}, 6, 1, map[], map[0 := Storing(1, 0, [5]), 1 := Opened(0)], {}, false)
    ensures Runs(s, acts) && WipeFree(s, acts)
    ensures Last(s, acts) == State(2, {1}, 2, 1, map[5 := 1], map[1 := Opened(0)], {}, false)
  {
    var a1, s1 := WipeFreeSnoc(s, [], StoreRow(0));
    var a2, s2 := WipeFreeSnoc(s, a1, Abort(0));
    assert s2.passes == map[1 := Opened(0)];
    var a3, s3 := WipeFreeSnoc(s, a2, Reset(2, {1}, 2));
    acts := a3;
  }

  lemma RerunOnOldRow(s: State) returns (acts: seq<Action>)
    requires s == State(2, {1}, 2, 1, map[5 := 1], map[1 := Opened(0)], {}, false)
    ensures Runs(s, acts) && WipeFree(s, acts)
    ensures Last(s, acts) == State(2, {1}, 2, 2, map[5 := 1], map[1 := Anchored(2, false)], {}, false)
  {
    var a1, s1 := WipeFreeSnoc(s, [], Select(1));
    var a2, s2 := WipeFreeSnoc(s, a1, Clear(1));
    var a3, s3 := WipeFreeSnoc(s, a2, Anchor(1));
    acts := a3;
  }

  /**
    So is the one on rows.  A pass loses its connection with the answer in hand; the server resets; a second pass
    anchors the new UIDVALIDITY; the first goes on storing.  No row is ever deleted, and no clear or window is loud.
   */
  lemma LostPassStoresStaleRow() returns (s: State, acts: seq<Action>)
    ensures Initial(s) && Runs(s, acts) && QuietRun(s, acts) && !Honest(s, acts)
    ensures var t := Last(s, acts); t.stored == t.validity == 2 && t.rows == map[5 := 1] && 1 in t.live
    ensures !OneValidity(Last(s, acts)) && !GapFree(Last(s, acts).live, Last(s, acts).rows.Keys)
  {
    s := State(1, {5}, 6, 0, map[], map[], {}, false);
    var first := LosesConnection(s);
    var t := Last(s, first);
    var second := AnotherAnchors(t);
    RunsConcat(s, first, second);
    QuietConcat(s, first, second);
    acts := first + second;
    var end := Last(s, acts);
    assert end.rows == map[5 := 1];
    assert 5 in end.rows && end.rows[5] != end.stored;
    if Honest(s, acts) {
      EveryRowBelongsToTheStoredValidity(s, acts);
    }
  }

  lemma LosesConnection(s: State) returns (acts: seq<Action>)
    requires s == State(1, {5}, 6, 0, map[], map[], {}, false)
    ensures Runs(s, acts) && QuietRun(s, acts)
    ensures Last(s, acts) == State(2, {1}, 2, 1, map[], map[0 := Storing(1, 0, [5])], {0}, false)
  {
    var a1, s1 := QuietSnoc(s, [], Open(0));
    var a2, s2 := QuietSnoc(s, a1, Select(0));
    var a3, s3 := QuietSnoc(s, a2, Clear(0));
    var a4, s4 := QuietSnoc(s, a3, Anchor(0));
    assert s4 == State(1, {5}, 6, 1, map[], map[0 := Anchored(1, false)], {}, false);
    var rest := LosesAfterFetch(s4);
    RunsConcat(s, a4, rest);
    QuietConcat(s, a4, rest);
    acts := a4 + rest;
  }

  lemma LosesAfterFetch(s: State) returns (acts: seq<Action>)
    requires s == State(1, {5}, 6, 1, map[], map[0 := Anchored(1, false)], {}, false)
    ensures Runs(s, acts) && QuietRun(s, acts)
    ensures Last(s, acts) == State(2, {1}, 2, 1, map[], map[0 := Storing(1, 0, [5])], {0}, false)
  {
    var a1, s1 := QuietSnoc(s, [], Window(0, 0));
    var a2, s2 := QuietSnoc(s, a1, Fetch(0, [5]));
    var a3, s3 := QuietSnoc(s, a2, Lose(0));
    var a4, s4 := QuietSnoc(s, a3, Reset(2, {1}, 2));
    acts := a4;
  }

  lemma AnotherAnchors(s: State) returns (acts: seq<Action>)
    requires s == State(2, {1}, 2, 1, map[], map[0 := Storing(1, 0, [5])], {0}, false)
    ensures Runs(s, acts) && QuietRun(s, acts)
    ensures var t := Last(s, acts); t.stored == t.validity == 2 && t.rows == map[5 := 1] && 1 in t.live
  {
    var a1, s1 := QuietSnoc(s, [], Open(1));
    var a2, s2 := QuietSnoc(s, a1, Select(1));
    var a3, s3 := QuietSnoc(s, a2, Clear(1));
    var a4, s4 := QuietSnoc(s, a3, Anchor(1));
    var a5, s5 := QuietSnoc(s, a4, StoreRow(0));
    acts := a5;
  }

  lemma {:induction false} QuietConcat(s: State, xs: seq<Action>, ys: seq<Action>)
    requires Runs(s, xs) && QuietRun(s, xs) && Runs(Last(s, xs), ys) && QuietRun(Last(s, xs), ys)
    ensures Runs(s, xs + ys) && QuietRun(s, xs + ys)
    decreases |xs|
  {
    if xs == [] {
      assert xs + ys == ys;
    } else {
      QuietConcat(Next(s, xs[0]), xs[1..], ys);
      assert (xs + ys)[0] == xs[0] && (xs + ys)[1..] == xs[1..] + ys;
    }
  }

  lemma {:induction false} WipeFreeConcat(s: State, xs: seq<Action>, ys: seq<Action>)
    requires Runs(s, xs) && WipeFree(s, xs) && Runs(Last(s, xs), ys) && WipeFree(Last(s, xs), ys)
    ensures Runs(s, xs + ys) && WipeFree(s, xs + ys)
    decreases |xs|
  {
    if xs == [] {
      assert xs + ys == ys;
    } else {
      WipeFreeConcat(Next(s, xs[0]), xs[1..], ys);
      assert (xs + ys)[0] == xs[0] && (xs + ys)[1..] == xs[1..] + ys;
    }
  }

  lemma Snoc(s: State, acts: seq<Action>, a: Action) returns (acts': seq<Action>, t: State)
    requires Runs(s, acts) && Enabled(Last(s, acts), a)
    ensures acts' == acts + [a] && Runs(s, acts') && t == Last(s, acts') == Next(Last(s, acts), a)
  {
    acts' := acts + [a];
    t := Next(Last(s, acts), a);
    RunsConcat(s, acts, [a]);
  }

  lemma WipeFreeSnoc(s: State, acts: seq<Action>, a: Action) returns (acts': seq<Action>, t: State)
    requires Runs(s, acts) && WipeFree(s, acts) && Enabled(Last(s, acts), a) && !Wipes(Last(s, acts), a)
    ensures Runs(s, acts') && WipeFree(s, acts') && t == Last(s, acts') == Next(Last(s, acts), a)
  {
    acts', t := Snoc(s, acts, a);
    WipeFreeConcat(s, acts, [a]);
  }

  lemma QuietSnoc(s: State, acts: seq<Action>, a: Action) returns (acts': seq<Action>, t: State)
    requires Runs(s, acts) && QuietRun(s, acts) && Enabled(Last(s, acts), a) && IsQuiet(Last(s, acts), a)
    ensures Runs(s, acts') && QuietRun(s, acts') && t == Last(s, acts') == Next(Last(s, acts), a)
  {
    acts', t := Snoc(s, acts, a);
    QuietConcat(s, acts, [a]);
  }

  lemma {:induction false} RunsConcat(s: State, xs: seq<Action>, ys: seq<Action>)
    requires Runs(s, xs) && Runs(Last(s, xs), ys)
    ensures Runs(s, xs + ys) && Last(s, xs + ys) == Last(Last(s, xs), ys)
    decreases |xs|
  {
    if xs == [] {
      assert xs + ys == ys;
    } else {
      RunsConcat(Next(s, xs[0]), xs[1..], ys);
      assert (xs + ys)[0] == xs[0] && (xs + ys)[1..] == xs[1..] + ys;
    }
  }
}
