/**
  The snapshot loader: selections and store writes on any goroutine, each followed at some later moment by a
  Refresh into a queue of one token, and one goroutine that rebuilds the snapshot.
 */
module Loader {
  datatype Selection = Selection(account: int, folder: int, thread: string)

  datatype Phase =
    | Idle
    | Pacing                                  // token taken, not yet reloading
    | Reloading(sel: Selection, since: nat)   // selection copied; store version at that moment

  datatype State = State(
    sel: Selection,
    store: nat,            // store version, one more per write
    owed: nat,             // changes whose Refresh call is still to come
    token: bool,           // refreshQueue
    phase: Phase,
    asked: bool,           // a Refresh was issued since the last reload began
    snapSel: Selection,    // what the snapshot was computed from
    snapStore: nat,
    failed: bool,          // the last reload gave up on a store error
    partial: bool)         // the snapshot lacks what a read did not give, such as the thread or an unread count

  datatype Action =
    | SelectAccount(account: int)
    | SelectFolder(folder: int)
    | OpenThread(thread: string)
    | WriteStore                 // a sync event changes the store
    | PatchSnapshot              // connection state, progress: no reload wanted
    | Refresh                    // the call that a change still owes, or one out of the blue
    | Take
    | Begin
    | Commit(seen: nat, whole: bool)  // the store version the reads observed, and whether all of them succeeded
    | GiveUp
    | Search                     // the search queue's own path

  ghost predicate Enabled(s: State, a: Action) {
    match a
    case Take => s.phase.Idle? && s.token
    case Begin => s.phase.Pacing?
    case Commit(seen, _) => s.phase.Reloading? && s.phase.since <= seen <= s.store
    case GiveUp => s.phase.Reloading?
    case Search => s.phase.Idle?
    case _ => true
  }

  ghost function Next(s: State, a: Action): State
    requires Enabled(s, a)
  {
    match a
    case SelectAccount(id) => s.(sel := Selection(id, 0, s.sel.thread), owed := s.owed + 1)
    case SelectFolder(id) => s.(sel := s.sel.(folder := id), owed := s.owed + 1)
    case OpenThread(t) => s.(sel := s.sel.(thread := t), owed := s.owed + 1)
    case WriteStore => s.(store := s.store + 1, owed := s.owed + 1)
    case PatchSnapshot => s
    case Refresh => s.(token := true, asked := true, owed := if s.owed == 0 then 0 else s.owed - 1)
    case Take => s.(token := false, phase := Pacing)
    case Begin => s.(phase := Reloading(s.sel, s.store), asked := false)
    case Commit(seen, whole) =>
      s.(phase := Idle, snapSel := s.phase.sel, snapStore := seen, failed := false, partial := !whole)
    case GiveUp => s.(phase := Idle, failed := true)
    case Search => s
  }

  ghost predicate Runs(s: State, acts: seq<Action>)
    decreases |acts|
  {
    acts == [] || (Enabled(s, acts[0]) && Runs(Next(s, acts[0]), acts[1..]))
  }

  ghost function Last(s: State, acts: seq<Action>): State
    requires Runs(s, acts)
    decreases |acts|
  {
    if acts == [] then s else Last(Next(s, acts[0]), acts[1..])
  }

  /** Started, with the first refresh of the program queued. */
  ghost predicate Initial(s: State) {
    s.owed == 0 && s.token && s.phase.Idle? && s.asked && s.snapStore <= s.store && !s.failed
  }

  /** Nothing is queued, owed or being done. */
  ghost predicate Quiescent(s: State) {
    s.owed == 0 && !s.token && s.phase.Idle?
  }

  ghost predicate UpToDate(s: State) {
    s.snapSel == s.sel && s.snapStore == s.store && !s.partial
  }

  ghost predicate Inv(s: State) {
    && s.snapStore <= s.store
    && (s.phase.Reloading? ==> s.phase.since <= s.store)
    && (s.asked ==> s.token || s.phase.Pacing?)
    && (s.owed == 0 && !s.token ==>
          match s.phase
          case Idle => s.failed || s.partial || UpToDate(s)
          case Pacing => true
          case Reloading(sel, since) => sel == s.sel && since == s.store)
  }

  lemma {:induction false} InvOverRuns(s: State, acts: seq<Action>)
    requires Inv(s) && Runs(s, acts)
    ensures Inv(Last(s, acts))
    decreases |acts|
  {
    if acts != [] {
      InvOverRuns(Next(s, acts[0]), acts[1..]);
    }
  }

  /** The account selected last. */
  ghost function LastAccount(acts: seq<Action>, before: int): int {
    if acts == [] then before
    else if acts[|acts| - 1].SelectAccount? then acts[|acts| - 1].account
    else LastAccount(acts[..|acts| - 1], before)
  }

  /** The folder selected last, none since another account was. */
  ghost function LastFolder(acts: seq<Action>, before: int): int {
    if acts == [] then before
    else if acts[|acts| - 1].SelectFolder? then acts[|acts| - 1].folder
    else if acts[|acts| - 1].SelectAccount? then 0
    else LastFolder(acts[..|acts| - 1], before)
  }

  ghost function LastThread(acts: seq<Action>, before: string): string {
    if acts == [] then before
    else if acts[|acts| - 1].OpenThread? then acts[|acts| - 1].thread
    else LastThread(acts[..|acts| - 1], before)
  }

  ghost function Writes(acts: seq<Action>): nat {
    if acts == [] then 0 else Writes(acts[..|acts| - 1]) + (if acts[|acts| - 1].WriteStore? then 1 else 0)
  }

  lemma {:induction false} RunsSnoc(s: State, init: seq<Action>, a: Action)
    requires Runs(s, init + [a])
    ensures Runs(s, init) && Enabled(Last(s, init), a) && Last(s, init + [a]) == Next(Last(s, init), a)
    decreases |init|
  {
    if init == [] {
      assert (init + [a])[1..] == [];
    } else {
      assert (init + [a])[1..] == init[1..] + [a];
      RunsSnoc(Next(s, init[0]), init[1..], a);
    }
  }

  /** What the loader goes by is what was selected last, and all that was written. */
  lemma {:induction false} SelectionIsLast(s: State, acts: seq<Action>)
    requires Runs(s, acts)
    ensures var t := Last(s, acts);
      && t.sel == Selection(LastAccount(acts, s.sel.account), LastFolder(acts, s.sel.folder),
                            LastThread(acts, s.sel.thread))
      && t.store == s.store + Writes(acts)
    decreases |acts|
  {
    if acts != [] {
      var init, a := acts[..|acts| - 1], acts[|acts| - 1];
      assert acts == init + [a];
      RunsSnoc(s, init, a);
      SelectionIsLast(s, init);
    }
  }

  /** A Refresh issued since the last reload began is never lost: a token is queued or the loader is about to reload. */
  lemma RefreshIsNeverLost(s: State, acts: seq<Action>)
    requires Initial(s) && Runs(s, acts)
    ensures var t := Last(s, acts); t.asked ==> t.token || t.phase.Pacing?
  {
    InvOverRuns(s, acts);
  }

  /**
    In every quiescent state whose last reload neither gave up nor left a part out, the snapshot was computed from the
    current account, folder and thread, and from the store as it is.
   */
  lemma QuiescentMeansUpToDate(s: State, acts: seq<Action>)
    requires Initial(s) && Runs(s, acts) && Quiescent(Last(s, acts))
    ensures var t := Last(s, acts); t.failed || t.partial || UpToDate(t)
    ensures var t := Last(s, acts); !t.failed && !t.partial ==>
      && t.snapSel.account == LastAccount(acts, s.sel.account) && t.snapSel.folder == LastFolder(acts, s.sel.folder)
      && t.snapSel.thread == LastThread(acts, s.sel.thread) && t.snapStore == s.store + Writes(acts)
  {
    InvOverRuns(s, acts);
    SelectionIsLast(s, acts);
  }

  /** And it gets there: once all Refresh calls are made, at most two reloads without error bring it up to date. */
  lemma SettlesWithinTwoReloads(s: State, before: seq<Action>) returns (acts: seq<Action>)
    requires Initial(s) && Runs(s, before) && Last(s, before).owed == 0
    ensures Runs(Last(s, before), acts) && |acts| <= 5
    ensures forall i :: 0 <= i < |acts| ==> acts[i].Take? || acts[i].Begin? || (acts[i].Commit? && acts[i].whole)
    ensures var t := Last(Last(s, before), acts);
      Quiescent(t) && (UpToDate(t) || (acts == [] && (t.failed || t.partial)))
  {
    InvOverRuns(s, before);
    var t := Last(s, before);
    match t.phase
    case Idle => acts := FromIdle(t);
    case Pacing =>
      var u := Next(Next(t, Begin), Commit(t.store, true));
      acts := FromIdle(u);
      acts := Before(Next(t, Begin), Commit(t.store, true), acts);
      acts := Before(t, Begin, acts);
    case Reloading(_, _) =>
      var u := Next(t, Commit(t.store, true));
      acts := FromIdle(u);
      acts := Before(t, Commit(t.store, true), acts);
  }

  lemma FromIdle(s: State) returns (acts: seq<Action>)
    requires Inv(s) && s.phase.Idle? && s.owed == 0
    ensures Runs(s, acts) && |acts| <= 3
    ensures forall i :: 0 <= i < |acts| ==> acts[i].Take? || acts[i].Begin? || (acts[i].Commit? && acts[i].whole)
    ensures Quiescent(Last(s, acts)) && (UpToDate(Last(s, acts)) || (acts == [] && (s.failed || s.partial)))
    ensures !s.token ==> acts == []
  {
    acts := [];
    if s.token {
      var s1 := Next(s, Take);
      var s2 := Next(s1, Begin);
      acts := Before(s2, Commit(s.store, true), []);
      acts := Before(s1, Begin, acts);
      acts := Before(s, Take, acts);
    }
  }

  lemma Before(s: State, a: Action, rest: seq<Action>) returns (acts: seq<Action>)
    requires Enabled(s, a) && Runs(Next(s, a), rest)
    ensures Runs(s, acts) && Last(s, acts) == Last(Next(s, a), rest) && acts == [a] + rest
  {
    acts := [a] + rest;
    assert acts[1..] == rest;
  }
}
