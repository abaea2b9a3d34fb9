/** The imperative SyncFolder, seen from the interleaving model: undisturbed, a pass is one of its runs. */
module SoloPass {
  import opened Mirror
  import FolderCache

  /** `n` upserts of a pass that holds an answer. */
  lemma {:induction false} Upserts(s: State, i: nat, n: nat, rows: FolderCache.Rows, m: FolderCache.Mailbox)
    returns (acts: seq<Action>)
    requires i in s.passes && s.passes[i].Storing? && n <= |s.passes[i].todo| && s.rows.Keys == rows.Keys
    ensures Runs(s, acts)
    ensures var p := s.passes[i]; var t := Last(s, acts);
      && t == s.(rows := t.rows, passes := s.passes[i := p.(todo := p.todo[n..])])
      && t.rows.Keys == FolderCache.Stored(rows, p.highest, p.todo[..n], m).Keys
    decreases n
  {
    var p := s.passes[i];
    if n == 0 {
      assert p.todo[0..] == p.todo && s.passes[i := p] == s.passes;
      acts := [];
    } else {
      var u := p.todo[0];
      var s' := Next(s, StoreRow(i));
      var rows' := if u <= p.highest then rows else rows[u := m.FlagsOf(u)];
      assert p.todo[..n][1..] == p.todo[1..][..n - 1] && p.todo[1..][n - 1..] == p.todo[n..];
      var rest := Upserts(s', i, n - 1, rows', m);
      acts := [StoreRow(i)] + rest;
      assert acts[1..] == rest;
    }
  }

  /** Two actions in front of a run. */
  lemma Two(s: State, a: Action, b: Action, rest: seq<Action>) returns (acts: seq<Action>)
    requires Enabled(s, a) && Enabled(Next(s, a), b) && Runs(Next(Next(s, a), b), rest)
    ensures Runs(s, acts) && Last(s, acts) == Last(Next(Next(s, a), b), rest)
  {
    var tail := [b] + rest;
    assert tail[1..] == rest && Runs(Next(s, a), tail);
    acts := [a] + tail;
    assert acts[1..] == tail;
  }

  lemma Then(s: State, acts: seq<Action>, a: Action) returns (acts': seq<Action>)
    requires Runs(s, acts) && Enabled(Last(s, acts), a)
    ensures Runs(s, acts') && Last(s, acts') == Next(Last(s, acts), a)
  {
    var t;
    acts', t := Snoc(s, acts, a);
  }

  lemma OneMore(s: State, a: Action, rest: seq<Action>) returns (acts: seq<Action>)
    requires Enabled(s, a) && Runs(Next(s, a), rest)
    ensures Runs(s, acts) && Last(s, acts) == Last(Next(s, a), rest)
  {
    acts := [a] + rest;
    assert acts[1..] == rest;
  }

  lemma Anchoring(s: State, i: nat, p: Pass)
    requires i in s.passes && s.passes[i] == p && p.Selected?
    ensures Enabled(s, Clear(i)) && Enabled(Next(s, Clear(i)), Anchor(i))
    ensures Next(Next(s, Clear(i)), Anchor(i)) == s.(
      stored := p.claimed,
      rows := if p.folder != 0 && p.folder != p.claimed then map[] else s.rows,
      passes := s.passes[i := Anchored(p.session, p.empty)])
  {
    assert s.passes[i := Cleared(p.claimed, p.session, p.empty)][i := Anchored(p.session, p.empty)]
        == s.passes[i := Anchored(p.session, p.empty)];
  }

  lemma Fetching(s: State, i: nat, v: nat, window: Uid, answer: seq<Uid>)
    requires i in s.passes && s.passes[i] == Anchored(v, false) && i !in s.offline && IsHighest(s.rows.Keys, window)
    requires IsFetchAnswer(s.live, window, answer)
    ensures Enabled(s, Window(i, window)) && Enabled(Next(s, Window(i, window)), Fetch(i, answer))
    ensures Next(Next(s, Window(i, window)), Fetch(i, answer))
         == s.(passes := s.passes[i := Storing(v, window, answer)])
  {
    assert s.passes[i := Windowed(v, window, false)][i := Storing(v, window, answer)]
        == s.passes[i := Storing(v, window, answer)];
  }

  lemma ResumedPass(s: State, i: nat, m: FolderCache.Mailbox, num: nat, stop: nat, rows: FolderCache.Rows,
                    window: Uid)
    returns (acts: seq<Action>)
    requires FolderCache.ValidMailbox(m) && s.live == m.msgs.Keys && rows.Keys == s.rows.Keys
    requires i in s.passes && i !in s.offline && IsHighest(rows.Keys, window)
    requires s.passes[i] == Anchored(m.validity, num == 0)
    ensures Runs(s, acts)
    ensures var t := Last(s, acts);
      && t == s.(rows := t.rows, passes := s.passes - {i})
      && t.rows.Keys == FolderCache.Stored(rows, window, FolderCache.Reached(window, num, m, stop), m).Keys
  {
    if num == 0 || stop < 2 {
      acts := Then(s, [], Abort(i));
    } else {
      var answer := FolderCache.FetchAnswer(m.order, window);
      FolderCache.FetchAnswerIs(m.order, window, m.msgs.Keys);
      Fetching(s, i, m.validity, window, answer);
      var s2 := s.(passes := s.passes[i := Storing(m.validity, window, answer)]);
      acts := StoredPart(s2, i, m, rows, FolderCache.Reached(window, num, m, stop));
      assert s2.passes - {i} == s.passes - {i};
      acts := Two(s, Window(i, window), Fetch(i, answer), acts);
    }
  }

  lemma StoredPart(s: State, i: nat, m: FolderCache.Mailbox, rows: FolderCache.Rows, part: seq<Uid>)
    returns (acts: seq<Action>)
    requires i in s.passes && s.passes[i].Storing? && part <= s.passes[i].todo && s.rows.Keys == rows.Keys
    ensures Runs(s, acts)
    ensures var t := Last(s, acts);
      && t == s.(rows := t.rows, passes := s.passes - {i})
      && t.rows.Keys == FolderCache.Stored(rows, s.passes[i].highest, part, m).Keys
  {
    assert s.passes[i].todo[..|part|] == part;
    var stores := Upserts(s, i, |part|, rows, m);
    acts := Then(s, stores, Abort(i));
    assert Last(s, acts).passes == s.passes - {i};
  }

  /** The rows and the anchor that the contract of SyncFolder promises, for a folder row read at any time. */
  ghost predicate AsSynced(s: State, t: State, folder: nat, m: FolderCache.Mailbox, stop: nat,
                           rows: FolderCache.Rows, window: Uid) {
    var wipes := FolderCache.Wipes(folder, FolderCache.SelectOf(m));
    var before := if wipes then 2 else 1;
    var kept: FolderCache.Rows := if wipes && 0 < stop then map[] else rows;
    if stop < before then t.stored == s.stored && t.rows.Keys == kept.Keys
    else
      && t.stored == m.validity
      && t.rows.Keys ==
         FolderCache.Stored(kept, window, FolderCache.Reached(window, |m.order|, m, stop - before), m).Keys
  }

  lemma SelectedPass(s: State, i: nat, folder: nat, m: FolderCache.Mailbox, stop: nat, rows: FolderCache.Rows,
                     window: Uid)
    returns (acts: seq<Action>)
    requires FolderCache.ValidMailbox(m) && s.live == m.msgs.Keys && 0 < stop
    requires i in s.passes && i !in s.offline && rows.Keys == s.rows.Keys
    requires s.passes[i] == Selected(folder, m.validity, m.validity, |m.order| == 0)
    requires IsHighest(if FolderCache.Wipes(folder, FolderCache.SelectOf(m)) then {} else rows.Keys, window)
    ensures Runs(s, acts)
    ensures AsSynced(s, Last(s, acts), folder, m, stop, rows, window)
    ensures var t := Last(s, acts); t == s.(stored := t.stored, rows := t.rows, passes := s.passes - {i})
  {
    var wipes := FolderCache.Wipes(folder, FolderCache.SelectOf(m));
    if wipes && stop == 1 {
      acts := ClearedOnly(s, i);
    } else {
      Anchoring(s, i, s.passes[i]);
      var kept: FolderCache.Rows := if wipes then map[] else rows;
      var s' := s.(stored := m.validity, rows := if wipes then map[] else s.rows,
                   passes := s.passes[i := Anchored(m.validity, |m.order| == 0)]);
      var resumed := ResumedPass(s', i, m, |m.order|, if wipes then stop - 2 else stop - 1, kept, window);
      assert s'.passes - {i} == s.passes - {i};
      acts := Two(s, Clear(i), Anchor(i), resumed);
    }
  }

  /**
    What the contract of SyncFolder says of the rows and the anchor is what a run of the model reaches, from any
    folder row the pass holds: one just read, or one that a rerun of the command still carries.
   */
  lemma SyncFolderIsARun(s: State, i: nat, m: FolderCache.Mailbox, stop: nat, rows: FolderCache.Rows, window: Uid)
    returns (acts: seq<Action>)
    requires FolderCache.ValidMailbox(m) && s.validity == m.validity && s.live == m.msgs.Keys
    requires i in s.passes && s.passes[i].Opened? && rows.Keys == s.rows.Keys
    requires IsHighest(if FolderCache.Wipes(s.passes[i].folder, FolderCache.SelectOf(m)) then {} else rows.Keys, window)
    ensures Runs(s, acts)
    ensures AsSynced(s, Last(s, acts), s.passes[i].folder, m, stop, rows, window)
    ensures var t := Last(s, acts);
      t == s.(stored := t.stored, rows := t.rows, passes := s.passes - {i}, offline := t.offline)
  {
    if stop == 0 {
      acts := OneMore(s, Abort(i), []);
    } else {
      assert s.live == {} <==> |m.order| == 0 by {
        if |m.order| != 0 { assert m.order[0] in m.order; }
      }
      var folder := s.passes[i].folder;
      var s' := s.(passes := s.passes[i := Selected(folder, m.validity, m.validity, |m.order| == 0)],
                   offline := s.offline - {i});
      var rest := SelectedPass(s', i, folder, m, stop, rows, window);
      assert s'.passes - {i} == s.passes - {i};
      acts := OneMore(s, Select(i), rest);
    }
  }

  /** A delta pass of the IDLE session: the stored anchors again, and a fetch whatever the mailbox holds. */
  lemma DeltaSyncIsARun(s: State, i: nat, m: FolderCache.Mailbox, stop: nat, rows: FolderCache.Rows, window: Uid)
    returns (acts: seq<Action>)
    requires FolderCache.ValidMailbox(m) && s.validity == m.validity && s.live == m.msgs.Keys && s.idle
    requires i !in s.passes && rows.Keys == s.rows.Keys && IsHighest(rows.Keys, window)
    ensures Runs(s, acts)
    ensures var t := Last(s, acts);
      && t == s.(rows := t.rows, offline := s.offline - {i})
      && t.rows.Keys == if stop == 0 then rows.Keys
                        else FolderCache.Stored(rows, window, FolderCache.Reached(window, 1, m, stop - 1), m).Keys
  {
    var p := Selected(s.stored, s.stored, s.validity, false);
    var s' := s.(passes := s.passes[i := p], offline := s.offline - {i});
    assert s'.passes - {i} == s.passes;
    if stop == 0 {
      acts := OneMore(s', Abort(i), []);
    } else {
      Anchoring(s', i, p);
      var s2 := s'.(passes := s.passes[i := Anchored(s.validity, false)]);
      assert s'.passes[i := Anchored(s.validity, false)] == s2.passes && s2.passes - {i} == s.passes;
      acts := ResumedPass(s2, i, m, 1, stop - 1, rows, window);
      acts := Two(s', Clear(i), Anchor(i), acts);
    }
    acts := OneMore(s, OpenDelta(i), acts);
  }

  /** The rows that ReconcileExpunged leaves are those of one step of the model. */
  lemma ReconcileIsAStep(s: State, m: FolderCache.Mailbox, rows: FolderCache.Rows)
    requires FolderCache.ValidMailbox(m) && s.live == m.msgs.Keys && s.idle && rows.Keys == s.rows.Keys && 0 !in rows
    ensures Enabled(s, Reconcile)
    ensures Next(s, Reconcile).rows.Keys
         == (map u | u in rows && (u == 0 || u in m.order) :: rows[u]).Keys
  {
  }

  lemma ClearedOnly(s: State, i: nat) returns (acts: seq<Action>)
    requires i in s.passes && s.passes[i].Selected?
    requires s.passes[i].folder != 0 && s.passes[i].folder != s.passes[i].claimed
    ensures Runs(s, acts) && Last(s, acts) == s.(rows := map[], passes := s.passes - {i})
  {
    var cleared := Then(s, [], Clear(i));
    acts := Then(s, cleared, Abort(i));
    assert Last(s, acts).passes == s.passes - {i};
  }
}
