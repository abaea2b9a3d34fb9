/**
  The CONDSTORE anchor over time: any number of syncs and refreshes of one folder, call by call, interleaved with
  each other and with a server that changes flags, delivers and expunges.  Standard: section 3.1.4.1 of RFC 7162.
 */
module FlagSync {
  import FolderCache
  import Mirror

  type Uid = FolderCache.Uid
  type Rows = FolderCache.Rows
  type Message = FolderCache.Message
  type Server = map<Uid, Message>

  datatype Answer = Answer(uid: Uid, msg: Message)

  /** A refresh notes in `foreign` the rows that other passes wrote since it read the anchor. */
  datatype Pass =
    | Selected(modSeq: nat)       // the anchor about to be stored: HIGHESTMODSEQ, or the old one for a delta
    | Anchored
    | Windowed(highest: Uid)
    | Storing(todo: seq<Answer>)
    | Opened(since: nat, foreign: set<Uid>)                   // anchor read
    | Scanned(since: nat, foreign: set<Uid>, cached: Rows)    // cached flags read
    | Refreshing(since: nat, foreign: set<Uid>, cached: Rows, condstore: bool, todo: seq<Answer>, maxModSeq: nat)

  datatype State = State(server: Server, top: nat, next: Uid, rows: Rows, anchor: nat, passes: map<nat, Pass>)

  datatype Action =
    | Change(uid: Uid, flags: FolderCache.FlagState)
    | Arrive(flags: FolderCache.FlagState)
    | Expunge(uid: Uid)
    | DropRow(uid: Uid)
    | Select(i: nat)
    | OpenDelta(i: nat)
    | Anchor(i: nat)
    | Window(i: nat, highest: Uid)
    | FetchNew(i: nat, uids: seq<Uid>)
    | StoreRow(i: nat)
    | OpenRefresh(i: nat)
    | Scan(i: nat)
    | FetchFlags(i: nat, caps: bool, uids: seq<Uid>)
    | RefreshRow(i: nat)
    | AdvanceAnchor(i: nat)
    | End(i: nat)

  ghost predicate Distinct(uids: seq<Uid>) {
    forall i, j :: 0 <= i < j < |uids| ==> uids[i] != uids[j]
  }

  ghost function Answers(server: Server, uids: seq<Uid>): seq<Answer>
    requires forall u :: u in uids ==> u in server
  {
    seq(|uids|, i requires 0 <= i < |uids| => Answer(uids[i], server[uids[i]]))
  }

  ghost predicate Enabled(s: State, a: Action) {
    match a
    case Change(u, _) => u in s.server
    case Arrive(_) => true
    case Expunge(u) => u in s.server
    // A local delete, or a reconciliation, follows the server's.
    case DropRow(u) => u !in s.server
    case Select(i) => i !in s.passes
    case OpenDelta(i) => i !in s.passes
    case Anchor(i) => i in s.passes && s.passes[i].Selected?
    case Window(i, h) => i in s.passes && s.passes[i].Anchored? && Mirror.IsHighest(s.rows.Keys, h)
    case FetchNew(i, uids) =>
      i in s.passes && s.passes[i].Windowed? && forall u :: u in uids ==> u in s.server && s.passes[i].highest < u
    case StoreRow(i) => i in s.passes && s.passes[i].Storing? && s.passes[i].todo != []
    case OpenRefresh(i) => i !in s.passes
    case Scan(i) => i in s.passes && s.passes[i].Opened?
    case FetchFlags(i, caps, uids) =>
      && i in s.passes && s.passes[i].Scanned? && Distinct(uids)
      && forall u :: u in uids <==>
           u in s.server && (caps && 0 < s.passes[i].since ==> s.passes[i].since < s.server[u].modSeq)
    case RefreshRow(i) => i in s.passes && s.passes[i].Refreshing? && s.passes[i].todo != []
    case AdvanceAnchor(i) => i in s.passes && s.passes[i].Refreshing? && s.passes[i].todo == []
    case End(i) => i in s.passes
  }

  function Max(a: nat, b: nat): nat {
    if a < b then b else a
  }

  ghost function Note(p: Pass, u: Uid): Pass {
    if p.Opened? || p.Scanned? || p.Refreshing? then p.(foreign := p.foreign + {u}) else p
  }

  /** Pass `i` writes row `u` and goes on as `p`; every other refresh notes it. */
  ghost function Write(s: State, i: nat, p: Pass, u: Uid, flags: FolderCache.FlagState): State {
    s.(rows := s.rows[u := flags],
       passes := map j | j in s.passes :: if j == i then p else Note(s.passes[j], u))
  }

  /** The refresh would write this answer: the row was known and had other flags. */
  ghost predicate Differs(p: Pass, a: Answer)
    requires p.Refreshing?
  {
    a.uid in p.cached && p.cached[a.uid] != a.msg.flags
  }

  ghost predicate MovesAnchor(p: Pass) {
    p.Refreshing? && p.condstore && p.maxModSeq != p.since
  }

  ghost function Next(s: State, a: Action): State
    requires Enabled(s, a)
  {
    match a
    case Change(u, flags) => s.(server := s.server[u := FolderCache.Message(flags, s.top + 1)], top := s.top + 1)
    case Arrive(flags) =>
      s.(server := s.server[s.next := FolderCache.Message(flags, s.top + 1)], top := s.top + 1, next := s.next + 1)
    case Expunge(u) => s.(server := s.server - {u}, top := s.top + 1)
    case DropRow(u) => s.(rows := s.rows - {u})
    case Select(i) => s.(passes := s.passes[i := Selected(s.top)])
    case OpenDelta(i) => s.(passes := s.passes[i := Selected(s.anchor)])
    case Anchor(i) => s.(anchor := s.passes[i].modSeq, passes := s.passes[i := Anchored])
    case Window(i, h) => s.(passes := s.passes[i := Windowed(h)])
    case FetchNew(i, uids) => s.(passes := s.passes[i := Storing(Answers(s.server, uids))])
    case StoreRow(i) =>
      var todo := s.passes[i].todo;
      Write(s, i, Storing(todo[1..]), todo[0].uid, todo[0].msg.flags)
    case OpenRefresh(i) => s.(passes := s.passes[i := Opened(s.anchor, {})])
    case Scan(i) => s.(passes := s.passes[i := Scanned(s.passes[i].since, s.passes[i].foreign, s.rows)])
    case FetchFlags(i, caps, uids) =>
      var p := s.passes[i];
      s.(passes := s.passes[i := Refreshing(p.since, p.foreign, p.cached, caps && 0 < p.since,
                                            Answers(s.server, uids), p.since)])
    case RefreshRow(i) =>
      var p := s.passes[i];
      var a := p.todo[0];
      var q := p.(todo := p.todo[1..], maxModSeq := Max(p.maxModSeq, a.msg.modSeq));
      if Differs(p, a) && a.uid in s.rows then Write(s, i, q, a.uid, a.msg.flags) else s.(passes := s.passes[i := q])
    case AdvanceAnchor(i) =>
      s.(anchor := if MovesAnchor(s.passes[i]) then s.passes[i].maxModSeq else s.anchor, passes := s.passes - {i})
    case End(i) => s.(passes := s.passes - {i})
  }

  ghost predicate Runs(s: State, acts: seq<Action>)
    decreases |acts|
  {
    acts == [] || (Enabled(s, acts[0]) && Runs(Next(s, acts[0]), acts[1..]))
  }

  ghost function Last(s: State, acts: seq<Action>): State
    requires Runs(s, acts)
    decreases |acts|
  {
    if acts == [] then s else Last(Next(s, acts[0]), acts[1..])
  }

  /** A folder never synced, beside any mailbox. */
  ghost predicate Initial(s: State) {
    && s.rows == map[] && s.anchor == 0 && s.passes == map[]
    && forall u :: u in s.server ==> u < s.next && s.server[u].modSeq <= s.top
  }

  // ----- what holds of the anchor -----

  /** A row or an answer carries the server's flags, if the server last changed the message at or before `bound`. */
  ghost predicate Fits(server: Server, u: Uid, flags: FolderCache.FlagState, bound: nat) {
    u in server && server[u].modSeq <= bound ==> flags == server[u].flags
  }

  /** The anchor vouches for every cached row the server last changed at or before it. */
  ghost predicate Sound(s: State) {
    forall u :: u in s.rows ==> Fits(s.server, u, s.rows[u], s.anchor)
  }

  /** The answers a pass has yet to write. */
  ghost predicate WillWrite(p: Pass, k: nat) {
    || (p.Storing? && k < |p.todo|)
    || (p.Refreshing? && k < |p.todo| && Differs(p, p.todo[k]))
  }

  ghost predicate AnswersFit(server: Server, p: Pass, bound: nat) {
    forall k: nat :: WillWrite(p, k) ==> Fits(server, p.todo[k].uid, p.todo[k].msg.flags, bound)
  }

  /** No pass holds an answer that the anchor would vouch for wrongly once written. */
  ghost predicate Harmless(s: State) {
    forall i :: i in s.passes ==> AnswersFit(s.server, s.passes[i], s.anchor)
  }

  /** The anchor a refresh will end with. */
  ghost function Ahead(floor: nat, todo: seq<Answer>): (m: nat)
    ensures floor <= m && forall i :: 0 <= i < |todo| ==> todo[i].msg.modSeq <= m
    decreases |todo|
  {
    if todo == [] then floor
    else
      var m := Ahead(Max(floor, todo[0].msg.modSeq), todo[1..]);
      assert forall i :: 1 <= i < |todo| ==> todo[i] == todo[1..][i - 1];
      m
  }

  ghost predicate PassBound(s: State, p: Pass) {
    match p
    case Selected(m) => m <= s.top
    case Storing(todo) => forall k :: 0 <= k < |todo| ==> todo[k].uid < s.next
    case Opened(since, _) => since <= s.top
    case Scanned(since, _, cached) =>
      since <= s.top && forall u :: u in cached ==> u < s.next && (u in s.server ==> u in s.rows)
    case Refreshing(since, _, cached, _, todo, maxModSeq) =>
      && since <= maxModSeq && Ahead(maxModSeq, todo) <= s.top
      && (forall k :: 0 <= k < |todo| ==> todo[k].uid < s.next)
      && forall u :: u in cached ==> u < s.next && (u in s.server ==> u in s.rows)
    case _ => true
  }

  /** Bookkeeping that every action keeps. */
  ghost predicate Base(s: State) {
    && s.anchor <= s.top
    && (forall u :: u in s.server ==> u < s.next && s.server[u].modSeq <= s.top)
    && (forall u :: u in s.rows ==> u < s.next)
    && forall i :: i in s.passes ==> PassBound(s, s.passes[i])
  }

  ghost predicate Pending(todo: seq<Answer>, u: Uid) {
    exists k :: 0 <= k < |todo| && todo[k].uid == u
  }

  /** What a refresh knows of the rows that no other pass has written since it read the anchor. */
  ghost predicate Tracks(server: Server, rows: Rows, p: Pass) {
    match p
    case Opened(since, foreign) => forall u :: u in rows && u !in foreign ==> Fits(server, u, rows[u], since)
    case Scanned(since, foreign, cached) =>
      forall u :: u in rows && u !in foreign ==> Fits(server, u, rows[u], since) && u in cached && cached[u] == rows[u]
    case Refreshing(_, foreign, cached, _, todo, maxModSeq) =>
      && (forall k :: 0 <= k < |todo| ==> Fits(server, todo[k].uid, todo[k].msg.flags, Ahead(maxModSeq, todo)))
      && (forall i, j :: 0 <= i < j < |todo| ==> todo[i].uid != todo[j].uid)
      && (forall u :: u in rows && u !in foreign ==>
            Fits(server, u, rows[u], Ahead(maxModSeq, todo)) || Pending(todo, u))
      && (forall k :: 0 <= k < |todo| && todo[k].uid in rows && todo[k].uid !in foreign ==>
            todo[k].uid in cached && cached[todo[k].uid] == rows[todo[k].uid])
    case _ => true
  }

  ghost predicate Tracked(s: State) {
    forall i :: i in s.passes ==> Tracks(s.server, s.rows, s.passes[i])
  }

  // ----- one action -----

  lemma BaseAfterWrite(s: State, i: nat, p: Pass, u: Uid, flags: FolderCache.FlagState)
    requires Base(s) && u < s.next && PassBound(s, p)
    ensures Base(Write(s, i, p, u, flags))
  {
    var t := Write(s, i, p, u, flags);
    forall j | j in t.passes
      ensures PassBound(t, t.passes[j])
    {
      assert j in s.passes && PassBound(s, s.passes[j]);
    }
  }

  lemma BaseAfterServer(s: State, a: Action)
    requires Base(s) && Enabled(s, a) && (a.Change? || a.Arrive? || a.Expunge?)
    ensures Base(Next(s, a))
  {
    var t := Next(s, a);
    forall j | j in t.passes
      ensures PassBound(t, t.passes[j])
    {
      assert PassBound(s, s.passes[j]);
    }
  }

  lemma BaseAfterPass(s: State, i: nat, p: Pass)
    requires Base(s) && PassBound(s, p)
    ensures Base(s.(passes := s.passes[i := p]))
  {
  }

  lemma {:induction false} AheadBelow(floor: nat, todo: seq<Answer>, top: nat)
    requires floor <= top && forall i :: 0 <= i < |todo| ==> todo[i].msg.modSeq <= top
    ensures Ahead(floor, todo) <= top
    decreases |todo|
  {
    if todo != [] { AheadBelow(Max(floor, todo[0].msg.modSeq), todo[1..], top); }
  }

  lemma BaseAfterFetchFlags(s: State, i: nat, caps: bool, uids: seq<Uid>)
    requires Base(s) && Enabled(s, FetchFlags(i, caps, uids))
    ensures Base(Next(s, FetchFlags(i, caps, uids)))
  {
    var todo := Answers(s.server, uids);
    assert PassBound(s, s.passes[i]);
    assert forall k :: 0 <= k < |todo| ==> uids[k] in uids;
    AheadBelow(s.passes[i].since, todo, s.top);
    BaseAfterPass(s, i, Next(s, FetchFlags(i, caps, uids)).passes[i]);
  }

  lemma BaseAfterRefreshRow(s: State, i: nat)
    requires Base(s) && Enabled(s, RefreshRow(i))
    ensures Base(Next(s, RefreshRow(i)))
  {
    var p := s.passes[i];
    var a := p.todo[0];
    var q := p.(todo := p.todo[1..], maxModSeq := Max(p.maxModSeq, a.msg.modSeq));
    assert PassBound(s, p);
    assert PassBound(s, q);
    BaseAfterWrite(s, i, q, a.uid, a.msg.flags);
    BaseAfterPass(s, i, q);
  }

  lemma BaseAfterDrop(s: State, u: Uid)
    requires Base(s) && Enabled(s, DropRow(u))
    ensures Base(Next(s, DropRow(u)))
  {
    var t := Next(s, DropRow(u));
    forall j | j in t.passes
      ensures PassBound(t, t.passes[j])
    {
      assert PassBound(s, s.passes[j]);
    }
  }

  lemma BaseStep(s: State, a: Action)
    requires Base(s) && Enabled(s, a)
    ensures Base(Next(s, a))
  {
    match a
    case Change(_, _) => BaseAfterServer(s, a);
    case Arrive(_) => BaseAfterServer(s, a);
    case Expunge(_) => BaseAfterServer(s, a);
    case DropRow(u) => BaseAfterDrop(s, u);
    case Select(i) => BaseAfterPass(s, i, Selected(s.top));
    case OpenDelta(i) => BaseAfterPass(s, i, Selected(s.anchor));
    case Anchor(i) =>
      assert PassBound(s, s.passes[i]);
      BaseAfterPass(s.(anchor := s.passes[i].modSeq), i, Anchored);
    case Window(i, h) => BaseAfterPass(s, i, Windowed(h));
    case FetchNew(i, uids) =>
      assert forall k :: 0 <= k < |uids| ==> uids[k] in uids;
      BaseAfterPass(s, i, Storing(Answers(s.server, uids)));
    case StoreRow(i) =>
      assert PassBound(s, s.passes[i]);
      var todo := s.passes[i].todo;
      BaseAfterWrite(s, i, Storing(todo[1..]), todo[0].uid, todo[0].msg.flags);
    case OpenRefresh(i) => BaseAfterPass(s, i, Opened(s.anchor, {}));
    case Scan(i) =>
      assert PassBound(s, s.passes[i]);
      BaseAfterPass(s, i, Scanned(s.passes[i].since, s.passes[i].foreign, s.rows));
    case FetchFlags(i, caps, uids) => BaseAfterFetchFlags(s, i, caps, uids);
    case RefreshRow(i) => BaseAfterRefreshRow(s, i);
    case AdvanceAnchor(i) => assert PassBound(s, s.passes[i]);
    case End(i) =>
  }

  // ----- as long as the anchor stands still -----

  ghost predicate IsStill(a: Action) {
    !a.Anchor? && !a.AdvanceAnchor?
  }

  ghost predicate Still(acts: seq<Action>) {
    forall i :: 0 <= i < |acts| ==> IsStill(acts[i])
  }

  /** No continuation that leaves the anchor alone makes it unsound. */
  ghost predicate Durable(s: State) {
    forall acts :: Runs(s, acts) && Still(acts) ==> Sound(Last(s, acts))
  }

  lemma FitsAfterServer(s: State, a: Action, u: Uid, flags: FolderCache.FlagState, bound: nat)
    requires Base(s) && Enabled(s, a) && (a.Change? || a.Arrive? || a.Expunge?)
    requires u < s.next && bound <= s.top && Fits(s.server, u, flags, bound)
    ensures Fits(Next(s, a).server, u, flags, bound)
  {
  }

  lemma ServerKeepsSound(s: State, a: Action)
    requires Base(s) && Sound(s) && Harmless(s) && Enabled(s, a) && (a.Change? || a.Arrive? || a.Expunge?)
    ensures Sound(Next(s, a)) && Harmless(Next(s, a))
  {
    var t := Next(s, a);
    forall u | u in t.rows
      ensures Fits(t.server, u, t.rows[u], t.anchor)
    {
      FitsAfterServer(s, a, u, s.rows[u], s.anchor);
    }
    forall i, k: nat | i in t.passes && WillWrite(t.passes[i], k)
      ensures Fits(t.server, t.passes[i].todo[k].uid, t.passes[i].todo[k].msg.flags, t.anchor)
    {
      assert PassBound(s, s.passes[i]) && AnswersFit(s.server, s.passes[i], s.anchor);
      FitsAfterServer(s, a, s.passes[i].todo[k].uid, s.passes[i].todo[k].msg.flags, s.anchor);
    }
  }

  lemma WriteKeepsSound(s: State, i: nat, p: Pass, u: Uid, flags: FolderCache.FlagState)
    requires Sound(s) && Harmless(s) && Fits(s.server, u, flags, s.anchor) && AnswersFit(s.server, p, s.anchor)
    ensures Sound(Write(s, i, p, u, flags)) && Harmless(Write(s, i, p, u, flags))
  {
    var t := Write(s, i, p, u, flags);
    forall j | j in t.passes
      ensures AnswersFit(t.server, t.passes[j], t.anchor)
    {
      assert AnswersFit(s.server, s.passes[j], s.anchor);
      NoteKeepsAnswers(s.passes[j], u);
    }
  }

  lemma NoteKeepsAnswers(p: Pass, u: Uid)
    ensures forall k: nat :: WillWrite(Note(p, u), k) <==> WillWrite(p, k)
    ensures p.Storing? || p.Refreshing? ==> Note(p, u).todo == p.todo
  {
  }

  lemma TailFits(server: Server, p: Pass, q: Pass, bound: nat)
    requires AnswersFit(server, p, bound) && (p.Storing? || p.Refreshing?) && p.todo != []
    requires if p.Storing? then q == Storing(p.todo[1..])
             else q.Refreshing? && q.todo == p.todo[1..] && q.cached == p.cached
    ensures AnswersFit(server, q, bound)
  {
    forall k: nat | WillWrite(q, k)
      ensures Fits(server, q.todo[k].uid, q.todo[k].msg.flags, bound)
    {
      assert WillWrite(p, k + 1) && q.todo[k] == p.todo[k + 1];
    }
  }

  lemma StillStep(s: State, a: Action)
    requires Base(s) && Sound(s) && Harmless(s) && Enabled(s, a) && IsStill(a)
    ensures Sound(Next(s, a)) && Harmless(Next(s, a))
  {
    match a
    case Change(_, _) => ServerKeepsSound(s, a);
    case Arrive(_) => ServerKeepsSound(s, a);
    case Expunge(_) => ServerKeepsSound(s, a);
    case StoreRow(i) =>
      var p := s.passes[i];
      assert AnswersFit(s.server, p, s.anchor) && WillWrite(p, 0);
      TailFits(s.server, p, Storing(p.todo[1..]), s.anchor);
      WriteKeepsSound(s, i, Storing(p.todo[1..]), p.todo[0].uid, p.todo[0].msg.flags);
    case RefreshRow(i) =>
      var p := s.passes[i];
      var q := p.(todo := p.todo[1..], maxModSeq := Max(p.maxModSeq, p.todo[0].msg.modSeq));
      assert AnswersFit(s.server, p, s.anchor);
      TailFits(s.server, p, q, s.anchor);
      if Differs(p, p.todo[0]) {
        assert WillWrite(p, 0);
        WriteKeepsSound(s, i, q, p.todo[0].uid, p.todo[0].msg.flags);
      }
    case _ =>
  }

  lemma {:induction false} StillOverRuns(s: State, acts: seq<Action>)
    requires Base(s) && Sound(s) && Harmless(s) && Runs(s, acts) && Still(acts)
    ensures Sound(Last(s, acts))
    decreases |acts|
  {
    if acts != [] {
      BaseStep(s, acts[0]);
      StillStep(s, acts[0]);
      assert forall i :: 0 <= i < |acts| - 1 ==> acts[1..][i] == acts[i + 1];
      StillOverRuns(Next(s, acts[0]), acts[1..]);
    }
  }

  /** A pass that holds an answer the anchor vouches for wrongly makes it unsound by running on. */
  lemma {:induction false} RunsIntoUnsound(s: State, i: nat, k: nat) returns (acts: seq<Action>)
    requires Base(s) && i in s.passes && WillWrite(s.passes[i], k)
    requires var a := s.passes[i].todo[k]; !Fits(s.server, a.uid, a.msg.flags, s.anchor)
    ensures Runs(s, acts) && Still(acts) && !Sound(Last(s, acts))
    decreases k
  {
    var p := s.passes[i];
    assert PassBound(s, p);
    var a := if p.Storing? then StoreRow(i) else RefreshRow(i);
    var t := Next(s, a);
    BaseStep(s, a);
    if k == 0 {
      assert t.rows[p.todo[0].uid] == p.todo[0].msg.flags;
      acts := [];
    } else {
      assert t.passes[i].todo[k - 1] == p.todo[k];
      acts := RunsIntoUnsound(t, i, k - 1);
    }
    var rest := acts;
    acts := [a] + rest;
    assert acts[1..] == rest;
  }

  /** The two conditions are exact: they hold of a state if and only if no run on makes the standing anchor unsound. */
  lemma SoundExactly(s: State)
    requires Base(s)
    ensures Sound(s) && Harmless(s) <==> Durable(s)
  {
    if Sound(s) && Harmless(s) {
      forall acts | Runs(s, acts) && Still(acts)
        ensures Sound(Last(s, acts))
      {
        StillOverRuns(s, acts);
      }
    } else if !Sound(s) {
      assert Runs(s, []) && Still([]) && Last(s, []) == s;
    } else {
      var i :| i in s.passes && !AnswersFit(s.server, s.passes[i], s.anchor);
      var k: nat :| WillWrite(s.passes[i], k)
        && !Fits(s.server, s.passes[i].todo[k].uid, s.passes[i].todo[k].msg.flags, s.anchor);
      var acts := RunsIntoUnsound(s, i, k);
    }
  }

  // ----- what a refresh may rely on -----

  lemma TracksAfterServer(s: State, a: Action, p: Pass)
    requires Base(s) && Enabled(s, a) && (a.Change? || a.Arrive? || a.Expunge?)
    requires PassBound(s, p) && Tracks(s.server, s.rows, p)
    ensures Tracks(Next(s, a).server, s.rows, p)
  {
    var t := Next(s, a);
    if p.Refreshing? {
      var bound := Ahead(p.maxModSeq, p.todo);
      forall k | 0 <= k < |p.todo|
        ensures Fits(t.server, p.todo[k].uid, p.todo[k].msg.flags, bound)
      {
        FitsAfterServer(s, a, p.todo[k].uid, p.todo[k].msg.flags, bound);
      }
      forall u | u in s.rows && u !in p.foreign && !Pending(p.todo, u)
        ensures Fits(t.server, u, s.rows[u], bound)
      {
        FitsAfterServer(s, a, u, s.rows[u], bound);
      }
    } else if p.Opened? || p.Scanned? {
      forall u | u in s.rows && u !in p.foreign
        ensures Fits(t.server, u, s.rows[u], p.since)
      {
        FitsAfterServer(s, a, u, s.rows[u], p.since);
      }
    }
  }

  lemma TracksAfterForeignWrite(server: Server, rows: Rows, p: Pass, u: Uid, flags: FolderCache.FlagState)
    requires Tracks(server, rows, p)
    ensures Tracks(server, rows[u := flags], Note(p, u))
  {
  }

  lemma TracksAfterDrop(server: Server, rows: Rows, p: Pass, u: Uid)
    requires Tracks(server, rows, p)
    ensures Tracks(server, rows - {u}, p)
  {
  }

  lemma TracksAfterFetch(s: State, i: nat, caps: bool, uids: seq<Uid>)
    requires Enabled(s, FetchFlags(i, caps, uids)) && Tracks(s.server, s.rows, s.passes[i])
    ensures Tracks(s.server, s.rows, Next(s, FetchFlags(i, caps, uids)).passes[i])
  {
    var p := s.passes[i];
    var todo := Answers(s.server, uids);
    assert forall k :: 0 <= k < |uids| ==> todo[k].uid == uids[k] && uids[k] in uids;
    forall u | u in s.rows && u !in p.foreign && u in s.server && u in uids
      ensures Pending(todo, u)
    {
      var k :| 0 <= k < |uids| && uids[k] == u;
      assert todo[k].uid == u;
    }
  }

  lemma TracksAfterOwnRefresh(server: Server, rows: Rows, p: Pass)
    requires p.Refreshing? && p.todo != [] && Tracks(server, rows, p)
    ensures var a := p.todo[0];
      var q := p.(todo := p.todo[1..], maxModSeq := Max(p.maxModSeq, a.msg.modSeq));
      Tracks(server, if Differs(p, a) && a.uid in rows then rows[a.uid := a.msg.flags] else rows, q)
  {
    var a := p.todo[0];
    var q := p.(todo := p.todo[1..], maxModSeq := Max(p.maxModSeq, a.msg.modSeq));
    var rows' := if Differs(p, a) && a.uid in rows then rows[a.uid := a.msg.flags] else rows;
    assert forall k :: 0 <= k < |q.todo| ==> q.todo[k] == p.todo[k + 1];
    var bound := Ahead(p.maxModSeq, p.todo);
    assert Ahead(q.maxModSeq, q.todo) == bound && Fits(server, a.uid, a.msg.flags, bound);
    forall u | u in rows' && u !in p.foreign
      ensures Fits(server, u, rows'[u], bound) || Pending(q.todo, u)
    {
      if u != a.uid && Pending(p.todo, u) {
        var k :| 0 <= k < |p.todo| && p.todo[k].uid == u;
        assert q.todo[k - 1].uid == u;
      }
    }
  }

  lemma TrackedAfterWrite(s: State, i: nat, p: Pass, u: Uid, flags: FolderCache.FlagState)
    requires Tracked(s) && Tracks(s.server, s.rows[u := flags], p)
    ensures Tracked(Write(s, i, p, u, flags))
  {
    var t := Write(s, i, p, u, flags);
    forall j | j in t.passes
      ensures Tracks(t.server, t.rows, t.passes[j])
    {
      TracksAfterForeignWrite(s.server, s.rows, s.passes[j], u, flags);
    }
  }

  lemma TrackedAfterServer(s: State, a: Action)
    requires Base(s) && Tracked(s) && Enabled(s, a) && (a.Change? || a.Arrive? || a.Expunge?)
    ensures Tracked(Next(s, a))
  {
    forall j | j in s.passes
      ensures Tracks(Next(s, a).server, s.rows, s.passes[j])
    {
      TracksAfterServer(s, a, s.passes[j]);
    }
  }

  lemma TrackedAfterPass(s: State, i: nat, p: Pass)
    requires Tracked(s) && Tracks(s.server, s.rows, p)
    ensures Tracked(s.(passes := s.passes[i := p]))
  {
  }

  lemma TrackedStep(s: State, a: Action)
    requires Base(s) && Tracked(s) && Enabled(s, a) && (a.OpenRefresh? ==> Sound(s))
    ensures Tracked(Next(s, a))
  {
    match a
    case Change(_, _) => TrackedAfterServer(s, a);
    case Arrive(_) => TrackedAfterServer(s, a);
    case Expunge(_) => TrackedAfterServer(s, a);
    case DropRow(u) =>
      forall j | j in s.passes
        ensures Tracks(s.server, s.rows - {u}, s.passes[j])
      {
        TracksAfterDrop(s.server, s.rows, s.passes[j], u);
      }
    case Select(i) => TrackedAfterPass(s, i, Selected(s.top));
    case OpenDelta(i) => TrackedAfterPass(s, i, Selected(s.anchor));
    case Anchor(i) => TrackedAfterPass(s.(anchor := s.passes[i].modSeq), i, Anchored);
    case Window(i, h) => TrackedAfterPass(s, i, Windowed(h));
    case FetchNew(i, uids) => TrackedAfterPass(s, i, Storing(Answers(s.server, uids)));
    case StoreRow(i) =>
      var todo := s.passes[i].todo;
      TrackedAfterWrite(s, i, Storing(todo[1..]), todo[0].uid, todo[0].msg.flags);
    case OpenRefresh(i) => TrackedAfterPass(s, i, Opened(s.anchor, {}));
    case Scan(i) =>
      var p := s.passes[i];
      assert Tracks(s.server, s.rows, p);
      TrackedAfterPass(s, i, Scanned(p.since, p.foreign, s.rows));
    case FetchFlags(i, caps, uids) =>
      TracksAfterFetch(s, i, caps, uids);
      TrackedAfterPass(s, i, Next(s, a).passes[i]);
    case RefreshRow(i) => TrackedAfterRefreshRow(s, i);
    case AdvanceAnchor(i) =>
    case End(i) =>
  }

  lemma TrackedAfterRefreshRow(s: State, i: nat)
    requires Tracked(s) && Enabled(s, RefreshRow(i))
    ensures Tracked(Next(s, RefreshRow(i)))
  {
    var p := s.passes[i];
    var a := p.todo[0];
    var q := p.(todo := p.todo[1..], maxModSeq := Max(p.maxModSeq, a.msg.modSeq));
    assert Tracks(s.server, s.rows, p);
    TracksAfterOwnRefresh(s.server, s.rows, p);
    if Differs(p, a) && a.uid in s.rows {
      TrackedAfterWrite(s, i, q, a.uid, a.msg.flags);
    } else {
      TrackedAfterPass(s, i, q);
    }
  }

  // ----- moving the anchor -----

  /** Neither a row that another pass wrote meanwhile nor an answer another pass still holds belies the new anchor. */
  ghost predicate OthersFit(s: State, i: nat)
    requires i in s.passes && s.passes[i].Refreshing?
  {
    var p := s.passes[i];
    && (forall u :: u in s.rows && u in p.foreign ==> Fits(s.server, u, s.rows[u], p.maxModSeq))
    && forall j :: j in s.passes && j != i ==> AnswersFit(s.server, s.passes[j], p.maxModSeq)
  }

  /**
    The anchor a refresh moves is as safe as the old one if and only if the other passes fit it: the rows this refresh
    read itself are vouched for, through any changes of the server.  The code does not look at other passes.
   */
  lemma AdvanceIsHarmlessIff(s: State, i: nat)
    requires Base(s) && Tracked(s) && Sound(s) && Harmless(s)
    requires Enabled(s, AdvanceAnchor(i)) && MovesAnchor(s.passes[i])
    ensures Durable(Next(s, AdvanceAnchor(i))) <==> OthersFit(s, i)
  {
    var p, t := s.passes[i], Next(s, AdvanceAnchor(i));
    BaseStep(s, AdvanceAnchor(i));
    SoundExactly(t);
    assert Tracks(s.server, s.rows, p);
    assert forall j :: j in t.passes <==> j in s.passes && j != i;
    assert forall j :: j in t.passes ==> t.passes[j] == s.passes[j];
  }

  /** The rows the server changed between the anchor and a SELECT, and the answers held, fit the SELECT's value. */
  ghost predicate CacheFits(s: State, i: nat)
    requires i in s.passes && s.passes[i].Selected?
  {
    var m := s.passes[i].modSeq;
    && (forall u :: u in s.rows && u in s.server && s.anchor < s.server[u].modSeq <= m ==>
          s.rows[u] == s.server[u].flags)
    && forall j :: j in s.passes ==> AnswersFit(s.server, s.passes[j], m)
  }

  /**
    The anchor a sync stores before it fetches is as safe as the old one if and only if every row that the server
    changed since the old one is up to date, and every answer held by a pass.  The code does not look at either.
   */
  lemma AnchorIsHarmlessIff(s: State, i: nat)
    requires Base(s) && Sound(s) && Harmless(s) && Enabled(s, Anchor(i))
    ensures Durable(Next(s, Anchor(i))) <==> CacheFits(s, i)
  {
    var t := Next(s, Anchor(i));
    BaseStep(s, Anchor(i));
    SoundExactly(t);
    assert forall j :: j in t.passes && j != i ==> t.passes[j] == s.passes[j];
    assert forall j :: j in s.passes <==> j in t.passes;
    if CacheFits(s, i) {
      forall u | u in t.rows
        ensures Fits(t.server, u, t.rows[u], t.anchor)
      {
        assert Fits(s.server, u, s.rows[u], s.anchor);
      }
    } else if Sound(t) && Harmless(t) {
      forall u | u in s.rows && u in s.server && s.anchor < s.server[u].modSeq <= s.passes[i].modSeq
        ensures s.rows[u] == s.server[u].flags
      {
        assert Fits(t.server, u, t.rows[u], t.anchor);
      }
      forall j | j in s.passes
        ensures AnswersFit(s.server, s.passes[j], s.passes[i].modSeq)
      {
        if j != i { assert AnswersFit(t.server, t.passes[j], t.anchor); }
      }
    }
  }

  // ----- runs -----

  /** Every move of the anchor in the run finds the rest of the state fit for it. */
  ghost predicate Careful(s: State, acts: seq<Action>)
    requires Runs(s, acts)
    decreases |acts|
  {
    acts == [] ||
    (&& (acts[0].Anchor? ==> CacheFits(s, acts[0].i))
     && (acts[0].AdvanceAnchor? && MovesAnchor(s.passes[acts[0].i]) ==> OthersFit(s, acts[0].i))
     && Careful(Next(s, acts[0]), acts[1..]))
  }

  ghost predicate Inv(s: State) {
    Base(s) && Tracked(s) && Sound(s) && Harmless(s)
  }

  lemma InvStep(s: State, a: Action)
    requires Inv(s) && Enabled(s, a)
    requires a.Anchor? ==> CacheFits(s, a.i)
    requires a.AdvanceAnchor? && MovesAnchor(s.passes[a.i]) ==> OthersFit(s, a.i)
    ensures Inv(Next(s, a))
  {
    BaseStep(s, a);
    TrackedStep(s, a);
    if a.Anchor? {
      AnchorIsHarmlessIff(s, a.i);
      SoundExactly(Next(s, a));
    } else if a.AdvanceAnchor? && MovesAnchor(s.passes[a.i]) {
      AdvanceIsHarmlessIff(s, a.i);
      SoundExactly(Next(s, a));
    } else if IsStill(a) {
      StillStep(s, a);
    }
  }

  /** Over every careful run of syncs and refreshes, interleaved and cut anywhere, the anchor stays sound. */
  lemma {:induction false} CarefulRunsStaySound(s: State, acts: seq<Action>)
    requires Inv(s) && Runs(s, acts) && Careful(s, acts)
    ensures Inv(Last(s, acts))
    decreases |acts|
  {
    if acts != [] {
      InvStep(s, acts[0]);
      CarefulRunsStaySound(Next(s, acts[0]), acts[1..]);
    }
  }

  /** Hence skipping by the anchor skips nothing that differs. */
  lemma SkippedRowsAreCurrent(s: State, acts: seq<Action>, u: Uid)
    requires Initial(s) && Runs(s, acts) && Careful(s, acts)
    requires var t := Last(s, acts); u in t.server && u in t.rows && t.rows[u] != t.server[u].flags
    ensures var t := Last(s, acts); t.anchor < t.server[u].modSeq
  {
    CarefulRunsStaySound(s, acts);
    var t := Last(s, acts);
    assert Fits(t.server, u, t.rows[u], t.anchor);
  }

  // ----- one session at a time -----

  /** A pass starts only when none is open; a full sync on an empty cache, or where SELECT reports the anchor itself. */
  ghost predicate Solo(s: State, acts: seq<Action>)
    requires Runs(s, acts)
    decreases |acts|
  {
    acts == [] ||
    (&& (acts[0].Select? || acts[0].OpenDelta? || acts[0].OpenRefresh? ==> s.passes == map[])
     && (acts[0].Select? ==> s.rows == map[] || s.top == s.anchor)
     && Solo(Next(s, acts[0]), acts[1..]))
  }

  ghost predicate SoloInv(s: State) {
    && (forall i, j :: i in s.passes && j in s.passes ==> i == j)
    && forall i :: i in s.passes ==>
         match s.passes[i]
         case Selected(m) => s.anchor <= m && (m == s.anchor || s.rows == map[])
         case Opened(since, foreign) => since == s.anchor && foreign == {}
         case Scanned(since, foreign, _) => since == s.anchor && foreign == {}
         case Refreshing(since, foreign, _, _, _, maxModSeq) => since == s.anchor && foreign == {}
         case _ => true
  }

  lemma SoloStep(s: State, a: Action)
    requires Base(s) && SoloInv(s) && Enabled(s, a)
    requires a.Select? || a.OpenDelta? || a.OpenRefresh? ==> s.passes == map[]
    requires a.Select? ==> s.rows == map[] || s.top == s.anchor
    ensures SoloInv(Next(s, a)) && s.anchor <= Next(s, a).anchor
  {
    if a.AdvanceAnchor? { assert PassBound(s, s.passes[a.i]); }
  }

  lemma SoloMovesFit(s: State, a: Action)
    requires SoloInv(s) && Enabled(s, a)
    ensures a.Anchor? ==> CacheFits(s, a.i)
    ensures a.AdvanceAnchor? ==> OthersFit(s, a.i)
  {
  }

  /**
    With one session at a time every run is careful, whatever the server does between its calls; and then the anchor
    never decreases.
   */
  lemma {:induction false} SoloRunsAreCareful(s: State, acts: seq<Action>)
    requires Base(s) && SoloInv(s) && Runs(s, acts) && Solo(s, acts)
    ensures Careful(s, acts) && s.anchor <= Last(s, acts).anchor
    decreases |acts|
  {
    if acts != [] {
      SoloStep(s, acts[0]);
      SoloMovesFit(s, acts[0]);
      BaseStep(s, acts[0]);
      SoloRunsAreCareful(Next(s, acts[0]), acts[1..]);
    }
  }

  /** So from the first sync on the anchor needs no hypothesis. */
  lemma SoundFromTheFirstSync(s: State, acts: seq<Action>)
    requires Initial(s) && Runs(s, acts) && Solo(s, acts)
    ensures Sound(Last(s, acts))
  {
    SoloRunsAreCareful(s, acts);
    CarefulRunsStaySound(s, acts);
  }

  // ----- runs that are not careful -----

  lemma {:induction false} RunsConcat(s: State, xs: seq<Action>, ys: seq<Action>)
    requires Runs(s, xs) && Runs(Last(s, xs), ys)
    ensures Runs(s, xs + ys) && Last(s, xs + ys) == Last(Last(s, xs), ys)
    decreases |xs|
  {
    if xs == [] {
      assert xs + ys == ys;
    } else {
      RunsConcat(Next(s, xs[0]), xs[1..], ys);
      assert (xs + ys)[0] == xs[0] && (xs + ys)[1..] == xs[1..] + ys;
    }
  }

  lemma Snoc(s: State, acts: seq<Action>, a: Action) returns (acts': seq<Action>, t: State)
    requires Runs(s, acts) && Enabled(Last(s, acts), a)
    ensures acts' == acts + [a] && Runs(s, acts') && t == Last(s, acts') == Next(Last(s, acts), a)
  {
    acts' := acts + [a];
    t := Next(Last(s, acts), a);
    RunsConcat(s, acts, [a]);
  }

  /** Message 1, with flags `f` since MODSEQ `modSeq`. */
  ghost function Mailbox(f: FolderCache.FlagState, modSeq: nat): Server {
    map[1 := FolderCache.Message(f, modSeq)]
  }

  /** A first sync up to its fetch: message 1 is in hand, not yet stored. */
  lemma FirstFetch(f: FolderCache.FlagState) returns (acts: seq<Action>)
    ensures var s := State(Mailbox(f, 1), 1, 2, map[], 0, map[]);
      && Runs(s, acts)
      && Last(s, acts)
         == State(Mailbox(f, 1), 1, 2, map[], 1, map[0 := Storing([Answer(1, FolderCache.Message(f, 1))])])
  {
    var s := State(Mailbox(f, 1), 1, 2, map[], 0, map[]);
    var a1, s1 := Snoc(s, [], Select(0));
    var a2, s2 := Snoc(s, a1, Anchor(0));
    var a3, s3 := Snoc(s, a2, Window(0, 0));
    var a4, s4 := Snoc(s, a3, FetchNew(0, [1]));
    assert Answers(s3.server, [1]) == [Answer(1, FolderCache.Message(f, 1))];
    acts := a4;
  }

  /**
    One pass fetches a message; the server changes its flags; another pass refreshes, does not know the message yet,
    and moves the anchor past the change; the first pass stores what it fetched.  The anchor vouches for stale flags.
   */
  lemma LateStoreGoesStale(f: FolderCache.FlagState, g: FolderCache.FlagState) returns (s: State, acts: seq<Action>)
    requires f != g
    ensures Initial(s) && Runs(s, acts) && !Sound(Last(s, acts))
    ensures var t := Last(s, acts); t.rows == map[1 := f] && t.server == Mailbox(g, 2) && t.anchor == 2
  {
    s := State(Mailbox(f, 1), 1, 2, map[], 0, map[]);
    var first := FirstFetch(f);
    var held := [Answer(1, FolderCache.Message(f, 1))];
    var t := State(Mailbox(f, 1), 1, 2, map[], 1, map[0 := Storing(held)]);
    var second := RefreshOvertakes(f, g, held, t);
    RunsConcat(s, first, second);
    var a, u := Snoc(s, first + second, StoreRow(0));
    acts := a;
    assert u.rows == map[1 := f];
    assert !Fits(u.server, 1, u.rows[1], u.anchor);
  }

  lemma RefreshOvertakes(f: FolderCache.FlagState, g: FolderCache.FlagState, held: seq<Answer>, s: State)
    returns (acts: seq<Action>)
    requires s == State(Mailbox(f, 1), 1, 2, map[], 1, map[0 := Storing(held)])
    ensures Runs(s, acts) && Last(s, acts) == State(Mailbox(g, 2), 2, 2, map[], 2, map[0 := Storing(held)])
  {
    var a1, s1 := Snoc(s, [], Change(1, g));
    var a2, s2 := Snoc(s, a1, OpenRefresh(1));
    var a3, s3 := Snoc(s, a2, Scan(1));
    assert s3 == State(Mailbox(g, 2), 2, 2, map[], 1, map[0 := Storing(held), 1 := Scanned(1, {}, map[])]);
    var rest := OvertakingRest(g, held, s3);
    RunsConcat(s, a3, rest);
    acts := a3 + rest;
  }

  lemma OvertakingRest(g: FolderCache.FlagState, held: seq<Answer>, s: State) returns (acts: seq<Action>)
    requires s == State(Mailbox(g, 2), 2, 2, map[], 1, map[0 := Storing(held), 1 := Scanned(1, {}, map[])])
    ensures Runs(s, acts) && Last(s, acts) == State(Mailbox(g, 2), 2, 2, map[], 2, map[0 := Storing(held)])
  {
    var a1, s1 := Snoc(s, [], FetchFlags(1, true, [1]));
    assert Answers(s.server, [1]) == [Answer(1, FolderCache.Message(g, 2))];
    var a2, s2 := Snoc(s, a1, RefreshRow(1));
    var a3, s3 := Snoc(s, a2, AdvanceAnchor(1));
    assert s3.passes == map[0 := Storing(held)];
    acts := a3;
  }

  /** A folder synced once; the server changes a flag; a second full sync stores the new HIGHESTMODSEQ all the same. */
  lemma ResyncGoesStale(f: FolderCache.FlagState, g: FolderCache.FlagState) returns (s: State, acts: seq<Action>)
    requires f != g
    ensures Initial(s) && Runs(s, acts) && !Sound(Last(s, acts))
    ensures var t := Last(s, acts); t.rows == map[1 := f] && t.server == Mailbox(g, 2) && t.anchor == 2
  {
    s := State(Mailbox(f, 1), 1, 2, map[], 0, map[]);
    var first := FirstFetch(f);
    var t := Last(s, first);
    var second := ResyncRest(f, g, t);
    RunsConcat(s, first, second);
    acts := first + second;
    var u := Last(s, acts);
    assert !Fits(u.server, 1, u.rows[1], u.anchor);
  }

  lemma ResyncRest(f: FolderCache.FlagState, g: FolderCache.FlagState, s: State) returns (acts: seq<Action>)
    requires s == State(Mailbox(f, 1), 1, 2, map[], 1, map[0 := Storing([Answer(1, FolderCache.Message(f, 1))])])
    ensures Runs(s, acts) && Last(s, acts) == State(Mailbox(g, 2), 2, 2, map[1 := f], 2, map[0 := Anchored])
  {
    var a1, s1 := Snoc(s, [], StoreRow(0));
    var a2, s2 := Snoc(s, a1, End(0));
    assert s2 == State(Mailbox(f, 1), 1, 2, map[1 := f], 1, map[]);
    var a3, s3 := Snoc(s, a2, Change(1, g));
    var a4, s4 := Snoc(s, a3, Select(0));
    var a5, s5 := Snoc(s, a4, Anchor(0));
    acts := a5;
  }
}
