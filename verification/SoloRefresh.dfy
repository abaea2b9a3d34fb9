/** The imperative RefreshFlags, seen from the interleaving model of the anchor: undisturbed, it is one of its runs. */
module SoloRefresh {
  import opened FlagSync
  import FolderCache

  /** The model's server is the mailbox, and the refresh is alone. */
  ghost predicate Alone(s: State, m: FolderCache.Mailbox) {
    FolderCache.ValidMailbox(m) && s.server == m.msgs && s.passes == map[]
  }

  /** The refresh with `todo` answers to go. */
  function Going(anchor: nat, cached: Rows, condstore: bool, todo: seq<Answer>, top: nat): map<nat, Pass> {
    map[0 := Refreshing(anchor, {}, cached, condstore, todo, top)]
  }

  lemma OneRow(s: State, m: FolderCache.Mailbox, cached: Rows, condstore: bool, uids: seq<Uid>, top: nat)
    requires FolderCache.ValidMailbox(m) && s.server == m.msgs && uids != []
    requires forall u :: u in uids ==> u in m.msgs
    requires s.passes == Going(s.anchor, cached, condstore, Answers(s.server, uids), top)
    requires s.rows.Keys == cached.Keys
    requires uids[0] in cached ==> cached[uids[0]] == s.rows[uids[0]]
    ensures Enabled(s, RefreshRow(0))
    ensures var u := uids[0]; var top' := Max(top, m.ModSeqOf(u));
      Next(s, RefreshRow(0)) == s.(
        rows := if u in s.rows then s.rows[u := m.FlagsOf(u)] else s.rows,
        passes := Going(s.anchor, cached, condstore, Answers(s.server, uids[1..]), top'))
  {
    var u := uids[0];
    assert u in uids;
    assert Answers(s.server, uids)[0] == Answer(u, m.msgs[u]);
    assert Answers(s.server, uids)[1..] == Answers(s.server, uids[1..]);
    var t := Next(s, RefreshRow(0));
    var p := s.passes[0];
    var q := p.(todo := p.todo[1..], maxModSeq := Max(p.maxModSeq, p.todo[0].msg.modSeq));
    assert t.passes == map[0 := q];
    if u in s.rows && s.rows[u] == m.FlagsOf(u) { assert s.rows[u := m.FlagsOf(u)] == s.rows; }
  }

  lemma MaxOfFirst(top: nat, uids: seq<Uid>, m: FolderCache.Mailbox, top': nat)
    requires uids != [] && FolderCache.IsMaxModSeq(Max(top, m.ModSeqOf(uids[0])), uids[1..], m, top')
    ensures FolderCache.IsMaxModSeq(top, uids, m, top')
  {
    assert forall u :: u in uids <==> u == uids[0] || u in uids[1..];
  }

  /** All the rows of the answer, one by one. */
  lemma {:induction false} AllRows(s: State, m: FolderCache.Mailbox, cached: Rows, condstore: bool, uids: seq<Uid>,
                                   top: nat)
    returns (acts: seq<Action>, top': nat)
    requires FolderCache.ValidMailbox(m) && s.server == m.msgs && Distinct(uids)
    requires forall u :: u in uids ==> u in m.msgs && (u in cached ==> u in s.rows && cached[u] == s.rows[u])
    requires s.passes == Going(s.anchor, cached, condstore, Answers(s.server, uids), top)
    requires s.rows.Keys == cached.Keys
    ensures Runs(s, acts) && FolderCache.IsMaxModSeq(top, uids, m, top')
    ensures Last(s, acts) == s.(rows := FolderCache.Overlay(s.rows, uids, m),
                                passes := Going(s.anchor, cached, condstore, [], top'))
    decreases |uids|
  {
    if uids == [] {
      assert Answers(s.server, uids) == [];
      return [], top;
    }
    assert uids[0] in uids;
    OneRow(s, m, cached, condstore, uids, top);
    var rest;
    rest, top' := AllRows(Next(s, RefreshRow(0)), m, cached, condstore, uids[1..], Max(top, m.ModSeqOf(uids[0])));
    acts := Preceded(s, RefreshRow(0), rest);
    MaxOfFirst(top, uids, m, top');
  }

  lemma Preceded(s: State, a: Action, rest: seq<Action>) returns (acts: seq<Action>)
    requires Enabled(s, a) && Runs(Next(s, a), rest)
    ensures Runs(s, acts) && Last(s, acts) == Last(Next(s, a), rest)
  {
    acts := [a] + rest;
    assert acts[1..] == rest;
  }

  /** The anchor and the cached flags are read. */
  lemma Reading(s: State)
    requires s.passes == map[]
    ensures Enabled(s, OpenRefresh(0)) && Enabled(Next(s, OpenRefresh(0)), Scan(0))
    ensures Next(Next(s, OpenRefresh(0)), Scan(0)) == s.(passes := map[0 := Scanned(s.anchor, {}, s.rows)])
  {
    assert Next(s, OpenRefresh(0)).passes == map[0 := Opened(s.anchor, {})];
  }

  lemma AnswerFits(anchor: nat, m: FolderCache.Mailbox, caps: bool, uids: seq<Uid>)
    requires FolderCache.ValidMailbox(m)
    requires uids == FolderCache.FlagAnswer(caps && 0 < anchor, anchor, m, m.order)
    ensures Distinct(uids)
    ensures forall u :: u in uids <==> u in m.msgs && (caps && 0 < anchor ==> anchor < m.msgs[u].modSeq)
  {
    FolderCache.FlagAnswerHas(caps && 0 < anchor, anchor, m, m.order);
    FolderCache.FlagAnswerAscends(caps && 0 < anchor, anchor, m, m.order);
  }

  /** The flags are answered. */
  lemma Answered(s: State, m: FolderCache.Mailbox, caps: bool, uids: seq<Uid>)
    requires FolderCache.ValidMailbox(m) && s.server == m.msgs
    requires s.passes == map[0 := Scanned(s.anchor, {}, s.rows)]
    requires uids == FolderCache.FlagAnswer(caps && 0 < s.anchor, s.anchor, m, m.order)
    ensures Distinct(uids) && (forall u :: u in uids ==> u in s.server) && Enabled(s, FetchFlags(0, caps, uids))
    ensures Next(s, FetchFlags(0, caps, uids))
         == s.(passes := Going(s.anchor, s.rows, caps && 0 < s.anchor, Answers(s.server, uids), s.anchor))
  {
    AnswerFits(s.anchor, m, caps, uids);
    assert Next(s, FetchFlags(0, caps, uids)).passes
        == Going(s.anchor, s.rows, caps && 0 < s.anchor, Answers(s.server, uids), s.anchor);
  }

  /**
    A completed, undisturbed refresh is a run of the interleaving model: its rows are the cached ones overlaid with the
    answer, and its anchor is the largest MODSEQ answered, where the server offers CONDSTORE and an anchor was stored.
   */
  lemma RefreshFlagsIsARun(s: State, m: FolderCache.Mailbox, caps: bool) returns (acts: seq<Action>)
    requires Alone(s, m)
    ensures Runs(s, acts)
    ensures var condstore := caps && 0 < s.anchor;
      var uids := FolderCache.FlagAnswer(condstore, s.anchor, m, m.order);
      var t := Last(s, acts);
      && t == s.(rows := FolderCache.Overlay(s.rows, uids, m), anchor := t.anchor)
      && (if condstore then FolderCache.IsMaxModSeq(s.anchor, uids, m, t.anchor) else t.anchor == s.anchor)
  {
    var condstore := caps && 0 < s.anchor;
    var uids := FolderCache.FlagAnswer(condstore, s.anchor, m, m.order);
    Reading(s);
    var s1 := Next(s, OpenRefresh(0));
    var s2 := Next(s1, Scan(0));
    Answered(s2, m, caps, uids);
    var s3 := Next(s2, FetchFlags(0, caps, uids));
    var rows, top := AllRows(s3, m, s.rows, condstore, uids, s.anchor);
    var s4 := Last(s3, rows);
    assert Next(s4, AdvanceAnchor(0)).passes == map[];
    var t;
    acts, t := Snoc(s3, rows, AdvanceAnchor(0));
    acts := Preceded(s2, FetchFlags(0, caps, uids), acts);
    acts := Preceded(s1, Scan(0), acts);
    acts := Preceded(s, OpenRefresh(0), acts);
  }
}
