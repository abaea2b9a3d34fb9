/**
  One cached folder and the sequential passes over it: SyncFolder, deltaSync, RefreshFlags and the expunge
  reconciliation.  Every pass may be cut short: `stop` is the number of its store and server calls that succeed.
  Standards: section 6.4.8 of RFC 3501, section 3.1.4.1 of RFC 7162.
 */
module FolderCache {
  import Mirror

  type Uid = Mirror.Uid

  datatype FlagState = FlagState(flags: string, isRead: bool, isFlagged: bool)

  datatype Message = Message(flags: FlagState, modSeq: nat)

  type Rows = map<Uid, FlagState>

  /** The server's side of the folder; `order` lists the UIDs of `msgs`, ascending. */
  datatype Mailbox = Mailbox(validity: nat, msgs: map<Uid, Message>, order: seq<Uid>, highestModSeq: nat) {
    function FlagsOf(u: Uid): FlagState {
      if u in msgs then msgs[u].flags else FlagState("", false, false)
    }

    function ModSeqOf(u: Uid): nat {
      if u in msgs then msgs[u].modSeq else 0
    }
  }

  datatype SelectData = SelectData(uidValidity: nat, highestModSeq: nat, numMessages: nat)

  ghost predicate ValidMailbox(m: Mailbox) {
    && 0 < m.validity
    && Mirror.Ascending(m.order)
    && (forall u :: u in m.order <==> u in m.msgs)
    && (forall u :: u in m.msgs ==> 0 < u && m.msgs[u].modSeq <= m.highestModSeq)
  }

  // ----- the server's answers -----

  function SelectOf(m: Mailbox): SelectData {
    SelectData(m.validity, m.highestModSeq, |m.order|)
  }

  /** `UID FETCH h+1:*`, which answers with the last message when nothing lies in the range. */
  function FetchAnswer(order: seq<Uid>, h: Uid): seq<Uid> {
    if |order| <= 1 || h < order[0] then order else FetchAnswer(order[1..], h)
  }

  lemma {:induction false} FetchAnswerIs(order: seq<Uid>, h: Uid, live: set<Uid>)
    requires Mirror.Ascending(order) && forall u :: u in order <==> u in live
    ensures Mirror.IsFetchAnswer(live, h, FetchAnswer(order, h))
  {
    if |order| > 1 && order[0] <= h {
      assert forall u :: u in order <==> u == order[0] || u in order[1..];
      FetchAnswerIs(order[1..], h, live - {order[0]});
    } else {
      assert forall u :: u in order ==> order[0] <= u;
    }
  }

  /** The flag fetch: `UID FETCH 1:* (FLAGS)`, narrowed by CHANGEDSINCE on a CONDSTORE server. */
  function FlagAnswer(condstore: bool, anchor: nat, m: Mailbox, order: seq<Uid>): seq<Uid> {
    if order == [] then []
    else (if condstore && m.ModSeqOf(order[0]) <= anchor then [] else [order[0]])
         + FlagAnswer(condstore, anchor, m, order[1..])
  }

  lemma {:induction false} FlagAnswerHas(condstore: bool, anchor: nat, m: Mailbox, order: seq<Uid>)
    ensures forall u :: u in FlagAnswer(condstore, anchor, m, order) <==>
      u in order && (condstore ==> anchor < m.ModSeqOf(u))
  {
    if order != [] {
      FlagAnswerHas(condstore, anchor, m, order[1..]);
      assert forall u :: u in order <==> u == order[0] || u in order[1..];
    }
  }

  lemma {:induction false} FlagAnswerAscends(condstore: bool, anchor: nat, m: Mailbox, order: seq<Uid>)
    requires Mirror.Ascending(order)
    ensures Mirror.Ascending(FlagAnswer(condstore, anchor, m, order))
  {
    if order != [] {
      var rest := FlagAnswer(condstore, anchor, m, order[1..]);
      FlagAnswerAscends(condstore, anchor, m, order[1..]);
      FlagAnswerHas(condstore, anchor, m, order[1..]);
      forall i | 0 <= i < |rest|
        ensures order[0] < rest[i]
      {
        assert rest[i] in rest && rest[i] in order[1..];
      }
    }
  }

  // ----- what the passes compute -----

  /** The rows after storing the answered UIDs above the window, in order. */
  ghost function Stored(rows: Rows, h: Uid, part: seq<Uid>, m: Mailbox): Rows
    decreases |part|
  {
    if part == [] then rows
    else Stored(if part[0] <= h then rows else rows[part[0] := m.FlagsOf(part[0])], h, part[1..], m)
  }

  /** The answered UIDs above the window, in order. */
  function NewUids(h: Uid, part: seq<Uid>): seq<Uid> {
    if part == [] then [] else (if part[0] <= h then [] else [part[0]]) + NewUids(h, part[1..])
  }

  /** The rows after a flag answer: known rows take the answered flags, in order. */
  ghost function Overlay(rows: Rows, part: seq<Uid>, m: Mailbox): Rows
    decreases |part|
  {
    if part == [] then rows
    else Overlay(if part[0] in rows then rows[part[0] := m.FlagsOf(part[0])] else rows, part[1..], m)
  }

  /** The answered UIDs whose cached flags differ, in order. */
  ghost function Differing(rows: Rows, part: seq<Uid>, m: Mailbox): seq<Uid>
  {
    if part == [] then []
    else (if part[0] in rows && rows[part[0]] != m.FlagsOf(part[0]) then [part[0]] else [])
         + Differing(rows, part[1..], m)
  }

  lemma {:induction false} DifferingGrows(rows: Rows, part: seq<Uid>, all: seq<Uid>, m: Mailbox)
    requires part <= all
    ensures |Differing(rows, part, m)| <= |Differing(rows, all, m)|
    decreases |part|
  {
    if part != [] { DifferingGrows(rows, part[1..], all[1..], m); }
  }

  /** The anchor vouches for every cached row the server last changed at or before it. */
  ghost predicate Sound(rows: Rows, anchor: nat, m: Mailbox) {
    && anchor <= m.highestModSeq
    && forall u :: u in m.msgs && u in rows && m.msgs[u].modSeq <= anchor ==> rows[u] == m.msgs[u].flags
  }

  /** The cached rows with the server's flags wherever the server still has the message. */
  ghost function Mirrored(rows: Rows, m: Mailbox): Rows {
    map u | u in rows :: if u in m.msgs then m.msgs[u].flags else rows[u]
  }

  // ----- the folder row and its messages -----

  class Folder {
    var uidValidity: nat
    var highestModSeq: nat
    var rows: Rows
    ghost var writes: seq<Uid>   // every row written or deleted, in order

    constructor ()
      ensures uidValidity == 0 && highestModSeq == 0 && rows == map[] && writes == []
    {
      uidValidity, highestModSeq, rows, writes := 0, 0, map[], [];
    }

    method UpsertMessage(uid: Uid, flags: FlagState)
      modifies this`rows, this`writes
      ensures rows == old(rows)[uid := flags] && writes == old(writes) + [uid]
    {
      rows := rows[uid := flags];
      writes := writes + [uid];
    }

    /** Rows not yet cached are ignored. */
    method UpdateMessageFlags(uid: Uid, flags: FlagState)
      modifies this`rows, this`writes
      ensures if uid in old(rows) then rows == old(rows)[uid := flags] && writes == old(writes) + [uid]
              else rows == old(rows) && writes == old(writes)
    {
      if uid in rows {
        rows := rows[uid := flags];
        writes := writes + [uid];
      }
    }

    method SetFolderSyncState(validity: nat, modSeq: nat)
      modifies this`uidValidity, this`highestModSeq
      ensures uidValidity == validity && highestModSeq == modSeq
    {
      uidValidity, highestModSeq := validity, modSeq;
    }

    method ClearFolderMessages()
      modifies this`rows
      ensures rows == map[]
    {
      rows := map[];
    }

    method HighestUID() returns (h: Uid)
      ensures Mirror.IsHighest(rows.Keys, h)
    {
      h := 0;
      var left := rows.Keys;
      ghost var seen: set<Uid> := {};
      while left != {}
        invariant seen + left == rows.Keys
        invariant Mirror.IsHighest(seen, h)
        decreases |left|
      {
        var u :| u in left;
        if h <= u { h := u; }
        left := left - {u};
        seen := seen + {u};
      }
    }

    method DeleteMessagesNotIn(live: set<Uid>)
      modifies this`rows, this`writes
      ensures rows == map u | u in old(rows) && (u == 0 || u in live) :: old(rows)[u]
      ensures rows == old(rows) ==> writes == old(writes)
    {
      var stale: seq<Uid> := [];
      var left := rows.Keys;
      while left != {}
        invariant left <= rows.Keys
        invariant forall u :: u in stale <==> u in rows && u !in left && 0 < u && u !in live
        invariant forall i, j :: 0 <= i < j < |stale| ==> stale[i] != stale[j]
        decreases |left|
      {
        var u :| u in left;
        if 0 < u && u !in live { stale := stale + [u]; }
        left := left - {u};
      }
      var i := 0;
      while i < |stale|
        invariant 0 <= i <= |stale|
        invariant rows == map u | u in old(rows) && u !in stale[..i] :: old(rows)[u]
        invariant i == 0 ==> rows == old(rows) && writes == old(writes)
        invariant i > 0 ==> rows != old(rows)
      {
        assert stale[..i + 1] == stale[..i] + [stale[i]];
        assert stale[i] in stale && stale[i] in old(rows) && stale[i] !in stale[..i];
        rows := rows - {stale[i]};
        writes := writes + [stale[i]];
        i := i + 1;
      }
      assert stale[..|stale|] == stale;
    }

    /** The upsert loop of SyncFolder over one FETCH answer, cut short after `stop` rows. */
    method StoreAnswer(highest: Uid, envelopes: seq<Uid>, server: Mailbox, stop: nat)
      returns (ok: bool, reported: seq<Uid>)
      modifies this`rows, this`writes
      ensures ok <==> |envelopes| <= stop
      ensures rows == Stored(old(rows), highest, Prefix(envelopes, stop), server)
      ensures reported == NewUids(highest, Prefix(envelopes, stop)) && writes == old(writes) + reported
    {
      reported := [];
      var done := 0;
      ghost var rest := Prefix(envelopes, stop);
      while done < |envelopes|
        invariant 0 <= done <= |envelopes| && done <= stop
        invariant rest == Prefix(envelopes, stop)[done..]
        invariant Stored(rows, highest, rest, server) == Stored(old(rows), highest, Prefix(envelopes, stop), server)
        invariant reported + NewUids(highest, rest) == NewUids(highest, Prefix(envelopes, stop))
        invariant writes == old(writes) + reported
      {
        if done == stop { return false, reported; }
        var uid := envelopes[done];
        assert rest[0] == uid;
        if uid > highest {
          UpsertMessage(uid, server.FlagsOf(uid));
          reported := reported + [uid];
        }
        done, rest := done + 1, rest[1..];
      }
      ok := true;
    }

    /** The part of SyncFolder after the anchors are set: window, range fetch, upserts. */
    method FetchAbove(numMessages: nat, server: Mailbox, stop: nat)
      returns (ok: bool, reported: seq<Uid>, ghost window: Uid)
      modifies this`rows, this`writes
      ensures Mirror.IsHighest(old(rows).Keys, window)
      ensures ok <==> ResumeCalls(window, numMessages, server) <= stop
      ensures rows == Stored(old(rows), window, Reached(window, numMessages, server, stop), server)
      ensures reported == NewUids(window, Reached(window, numMessages, server, stop))
      ensures writes == old(writes) + reported
    {
      reported := [];
      if stop == 0 {
        window := HighestUID();
        return false, reported, window;
      }
      var highest := HighestUID();
      window := highest;
      if numMessages == 0 { return true, reported, window; }
      if stop == 1 { return false, reported, window; }
      ok, reported := StoreAnswer(highest, FetchAnswer(server.order, highest), server, stop - 2);
    }

    /**
      Fetches and stores every message above the cache.  `folder` is the UIDVALIDITY of the folder row as the
      caller read it.
     */
    method SyncFolder(folder: nat, selected: SelectData, server: Mailbox, stop: nat)
      returns (ok: bool, reported: seq<Uid>, ghost window: Uid)
      modifies this
      ensures
        var before := if Wipes(folder, selected) then 2 else 1;
        var kept := if Wipes(folder, selected) && 0 < stop then map[] else old(rows);
        if stop < before then
          && !ok && rows == kept && reported == [] && writes == old(writes)
          && uidValidity == old(uidValidity) && highestModSeq == old(highestModSeq)
        else
          && Mirror.IsHighest(kept.Keys, window)
          && (ok <==> ResumeCalls(window, selected.numMessages, server) <= stop - before)
          && rows == Stored(kept, window, Reached(window, selected.numMessages, server, stop - before), server)
          && reported == NewUids(window, Reached(window, selected.numMessages, server, stop - before))
          && writes == old(writes) + reported
          && uidValidity == selected.uidValidity && highestModSeq == selected.highestModSeq
    {
      window := 0;
      var left: nat := stop;
      if folder != 0 && selected.uidValidity != folder {
        if left == 0 { return false, [], window; }
        left := left - 1;
        ClearFolderMessages();
      }
      if left == 0 { return false, [], window; }
      SetFolderSyncState(selected.uidValidity, selected.highestModSeq);
      ok, reported, window := FetchAbove(selected.numMessages, server, left - 1);
    }

    /** A delta pass over the still selected folder: stored anchors, range fetch forced. */
    method DeltaSync(server: Mailbox, stop: nat) returns (ok: bool, reported: seq<Uid>, ghost window: Uid)
      modifies this
      ensures uidValidity == old(uidValidity) && highestModSeq == old(highestModSeq)
      ensures 0 < stop ==>
        && Mirror.IsHighest(old(rows).Keys, window)
        && (ok <==> ResumeCalls(window, 1, server) < stop)
        && rows == Stored(old(rows), window, Reached(window, 1, server, stop - 1), server)
        && reported == NewUids(window, Reached(window, 1, server, stop - 1))
        && writes == old(writes) + reported
      ensures stop == 0 ==> !ok && rows == old(rows) && reported == [] && writes == old(writes)
    {
      ok, reported, window := SyncFolder(uidValidity, SelectData(uidValidity, highestModSeq, 1), server, stop);
    }

    /** The update loop of RefreshFlags over one flag answer, cut short before update number `stop`. */
    method ApplyFlags(bufs: seq<Uid>, server: Mailbox, anchor: nat, stop: nat)
      returns (ok: bool, reported: seq<Uid>, maxModSeq: nat, ghost part: seq<Uid>)
      requires forall i, j :: 0 <= i < j < |bufs| ==> bufs[i] != bufs[j]
      modifies this`rows, this`writes
      ensures part <= bufs && (ok ==> part == bufs && IsMaxModSeq(anchor, bufs, server, maxModSeq))
      ensures !ok ==> |reported| == stop
      ensures ok <==> |Differing(old(rows), bufs, server)| <= stop
      ensures rows == Overlay(old(rows), part, server)
      ensures reported == Differing(old(rows), part, server) && writes == old(writes) + reported
    {
      var cached := rows;
      maxModSeq, reported, part := anchor, [], [];
      var i := 0;
      while i < |bufs|
        invariant 0 <= i <= |bufs| && part == bufs[..i]
        invariant IsMaxModSeq(anchor, part, server, maxModSeq)
        invariant rows == Overlay(cached, part, server)
        invariant reported == Differing(cached, part, server) && writes == old(writes) + reported
        invariant |reported| <= stop
      {
        var uid := bufs[i];
        assert bufs[..i + 1] == part + [uid];
        OverlaySnoc(cached, part, uid, server);
        DifferingSnoc(cached, part, uid, server);
        OverlayMeaning(cached, part, server);
        if server.ModSeqOf(uid) > maxModSeq { maxModSeq := server.ModSeqOf(uid); }
        if uid in cached && cached[uid] != server.FlagsOf(uid) {
          if |reported| == stop {
            DifferingGrows(cached, part + [uid], bufs, server);
            return false, reported, maxModSeq, part;
          }
          UpdateMessageFlags(uid, server.FlagsOf(uid));
          reported := reported + [uid];
        }
        i, part := i + 1, part + [uid];
      }
      assert part == bufs;
      ok := true;
    }

    /**
      Applies the server's flags to the cached rows; `caps` says whether the server offers CONDSTORE, and
      `stop` is the number of row updates that succeed before a failing one.
     */
    method RefreshFlags(caps: bool, server: Mailbox, stop: nat) returns (ok: bool, reported: seq<Uid>)
      requires ValidMailbox(server)
      modifies this
      ensures uidValidity == old(uidValidity) && writes == old(writes) + reported
      ensures WritesExactly(old(rows), rows, reported)
      ensures !ok ==> |reported| == stop && highestModSeq == old(highestModSeq)
      ensures var answer := FlagAnswer(caps && 0 < old(highestModSeq), old(highestModSeq), server, server.order);
        && (ok <==> |Differing(old(rows), answer, server)| <= stop)
        && (ok ==> rows == Overlay(old(rows), answer, server) && reported == Differing(old(rows), answer, server))
      ensures ok ==> if caps && 0 < old(highestModSeq)
                     then IsMaxModSeq(old(highestModSeq), server.order, server, highestModSeq)
                     else highestModSeq == old(highestModSeq)
      ensures Sound(old(rows), old(highestModSeq), server) ==> Sound(rows, highestModSeq, server)
      ensures ok && (Sound(old(rows), old(highestModSeq), server) || !caps || old(highestModSeq) == 0)
        ==> rows == Mirrored(old(rows), server)
    {
      var condstore := caps && 0 < highestModSeq;
      var anchor := highestModSeq;
      ghost var was := rows;
      var bufs := FlagAnswer(condstore, anchor, server, server.order);
      FlagAnswerAscends(condstore, anchor, server, server.order);
      var maxModSeq: nat;
      ghost var part;
      ok, reported, maxModSeq, part := ApplyFlags(bufs, server, anchor, stop);
      RefreshMeaning(was, anchor, server, condstore, part);
      if ok {
        if !condstore || Sound(was, anchor, server) { RefreshMirrors(was, anchor, server, condstore); }
        if condstore {
          AnswerHasMax(anchor, server, maxModSeq);
          if Sound(was, anchor, server) { MirroredIsSound(was, anchor, server, maxModSeq); }
        }
      }
      if ok && condstore && maxModSeq != anchor {
        SetFolderSyncState(uidValidity, maxModSeq);
      }
    }

    /** Drops the rows the server no longer has: one UID inventory, one transaction. */
    method ReconcileExpunged(server: Mailbox)
      modifies this`rows, this`writes
      ensures rows == map u | u in old(rows) && (u == 0 || u in server.order) :: old(rows)[u]
      ensures rows == old(rows) ==> writes == old(writes)
    {
      var live: set<Uid> := {};
      var i := 0;
      while i < |server.order|
        invariant 0 <= i <= |server.order|
        invariant forall u :: u in live <==> u in server.order[..i]
      {
        assert server.order[..i + 1] == server.order[..i] + [server.order[i]];
        live := live + {server.order[i]};
        i := i + 1;
      }
      assert server.order[..i] == server.order;
      DeleteMessagesNotIn(live);
    }
  }

  function Prefix(s: seq<Uid>, n: nat): seq<Uid> {
    if n < |s| then s[..n] else s
  }

  ghost predicate Wipes(folder: nat, selected: SelectData) {
    folder != 0 && selected.uidValidity != folder
  }

  /** The part of the FETCH answer that a resumed pass of `stop` successful calls gets to. */
  ghost function Reached(window: Uid, numMessages: nat, m: Mailbox, stop: nat): seq<Uid>
  {
    if numMessages == 0 || stop < 2 then [] else Prefix(FetchAnswer(m.order, window), stop - 2)
  }

  /** Store and server calls of a complete resumed pass: window, fetch, one per answered row. */
  ghost function ResumeCalls(window: Uid, numMessages: nat, m: Mailbox): nat
  {
    if numMessages == 0 then 1 else 2 + |FetchAnswer(m.order, window)|
  }

  ghost predicate IsMaxModSeq(anchor: nat, uids: seq<Uid>, m: Mailbox, top: nat)
  {
    && anchor <= top
    && (forall u :: u in uids ==> m.ModSeqOf(u) <= top)
    && (top == anchor || exists u :: u in uids && m.ModSeqOf(u) == top)
  }

  /** Exactly the reported rows changed, and no row came or went. */
  ghost predicate WritesExactly(was: Rows, rows: Rows, reported: seq<Uid>) {
    && rows.Keys == was.Keys
    && (forall u :: u in reported ==> u in was)
    && (forall u :: u in was ==> (u in reported <==> rows[u] != was[u]))
  }

  // ----- flags -----

  lemma {:induction false} OverlaySnoc(rows: Rows, part: seq<Uid>, u: Uid, m: Mailbox)
    ensures Overlay(rows, part + [u], m) ==
      if u in rows then Overlay(rows, part, m)[u := m.FlagsOf(u)] else Overlay(rows, part, m)
    decreases |part|
  {
    if part == [] {
      assert ([] + [u])[1..] == [];
    } else {
      assert (part + [u])[1..] == part[1..] + [u];
      OverlaySnoc(if part[0] in rows then rows[part[0] := m.FlagsOf(part[0])] else rows, part[1..], u, m);
    }
  }

  lemma {:induction false} DifferingSnoc(rows: Rows, part: seq<Uid>, u: Uid, m: Mailbox)
    ensures Differing(rows, part + [u], m) ==
      Differing(rows, part, m) + if u in rows && rows[u] != m.FlagsOf(u) then [u] else []
    decreases |part|
  {
    if part == [] {
      assert ([] + [u])[1..] == [];
    } else {
      assert (part + [u])[1..] == part[1..] + [u];
      DifferingSnoc(rows, part[1..], u, m);
    }
  }

  /** A flag answer folded in gives every answered cached row the server's flags and touches no other. */
  lemma {:induction false} OverlayMeaning(rows: Rows, part: seq<Uid>, m: Mailbox)
    ensures var t := Overlay(rows, part, m);
      && t.Keys == rows.Keys
      && (forall u :: u in rows ==> t[u] == if u in part then m.FlagsOf(u) else rows[u])
    decreases |part|
  {
    if part != [] {
      OverlayMeaning(if part[0] in rows then rows[part[0] := m.FlagsOf(part[0])] else rows, part[1..], m);
      assert forall u :: u in part <==> u == part[0] || u in part[1..];
    }
  }

  lemma {:induction false} DifferingMeaning(rows: Rows, part: seq<Uid>, m: Mailbox)
    ensures forall u :: u in Differing(rows, part, m) <==> u in part && u in rows && rows[u] != m.FlagsOf(u)
    decreases |part|
  {
    if part != [] {
      DifferingMeaning(rows, part[1..], m);
      assert forall u :: u in part <==> u == part[0] || u in part[1..];
    }
  }

  /** What a part of the flag answer folded in means for the cache and its anchor. */
  lemma RefreshMeaning(rows: Rows, anchor: nat, m: Mailbox, condstore: bool, part: seq<Uid>)
    requires ValidMailbox(m) && part <= FlagAnswer(condstore, anchor, m, m.order)
    ensures WritesExactly(rows, Overlay(rows, part, m), Differing(rows, part, m))
    ensures Sound(rows, anchor, m) ==> Sound(Overlay(rows, part, m), anchor, m)
  {
    FlagAnswerHas(condstore, anchor, m, m.order);
    OverlayMeaning(rows, part, m);
    DifferingMeaning(rows, part, m);
  }

  /** The whole answer makes the cached rows mirror the server, provided the anchor it skips by is sound. */
  lemma RefreshMirrors(rows: Rows, anchor: nat, m: Mailbox, condstore: bool)
    requires ValidMailbox(m) && (condstore ==> Sound(rows, anchor, m))
    ensures Overlay(rows, FlagAnswer(condstore, anchor, m, m.order), m) == Mirrored(rows, m)
  {
    FlagAnswerHas(condstore, anchor, m, m.order);
    OverlayMeaning(rows, FlagAnswer(condstore, anchor, m, m.order), m);
  }

  /** The highest MODSEQ of the narrowed answer, floored by the anchor, is that of the whole mailbox. */
  lemma AnswerHasMax(anchor: nat, m: Mailbox, top: nat)
    requires ValidMailbox(m)
    requires IsMaxModSeq(anchor, FlagAnswer(true, anchor, m, m.order), m, top)
    ensures IsMaxModSeq(anchor, m.order, m, top)
  {
    FlagAnswerHas(true, anchor, m, m.order);
  }

  /** Advancing the anchor over the mirrored rows keeps it sound. */
  lemma MirroredIsSound(rows: Rows, anchor: nat, m: Mailbox, top: nat)
    requires ValidMailbox(m) && Sound(rows, anchor, m) && IsMaxModSeq(anchor, m.order, m, top)
    ensures Sound(Mirrored(rows, m), top, m)
  {
  }

  /** From a sound anchor CHANGEDSINCE and the full scan end with the same table, and the anchor stays sound. */
  lemma CondstoreRefinesFullScan(rows: Rows, anchor: nat, m: Mailbox, top: nat)
    requires ValidMailbox(m) && Sound(rows, anchor, m)
    requires IsMaxModSeq(anchor, m.order, m, top)
    ensures Overlay(rows, FlagAnswer(true, anchor, m, m.order), m)
         == Overlay(rows, FlagAnswer(false, anchor, m, m.order), m)
    ensures Differing(rows, FlagAnswer(true, anchor, m, m.order), m)
         == Differing(rows, FlagAnswer(false, anchor, m, m.order), m)
    ensures anchor <= top && Sound(Overlay(rows, FlagAnswer(true, anchor, m, m.order), m), top, m)
  {
    RefreshMirrors(rows, anchor, m, true);
    RefreshMirrors(rows, anchor, m, false);
    MirroredIsSound(rows, anchor, m, top);
    SameDifferences(rows, anchor, m, m.order);
  }

  lemma {:induction false} SameDifferences(rows: Rows, anchor: nat, m: Mailbox, order: seq<Uid>)
    requires Sound(rows, anchor, m) && forall u :: u in order ==> u in m.msgs
    ensures Differing(rows, FlagAnswer(true, anchor, m, order), m)
         == Differing(rows, FlagAnswer(false, anchor, m, order), m)
  {
    if order != [] {
      var changed, all := FlagAnswer(true, anchor, m, order[1..]), FlagAnswer(false, anchor, m, order[1..]);
      SameDifferences(rows, anchor, m, order[1..]);
      assert ([order[0]] + changed)[1..] == changed && ([order[0]] + all)[1..] == all;
      assert FlagAnswer(false, anchor, m, order) == [order[0]] + all;
      assert m.ModSeqOf(order[0]) <= anchor ==> [] + changed == changed;
    }
  }

  // ----- convergence -----

  lemma {:induction false} StoredMeaning(rows: Rows, h: Uid, part: seq<Uid>, m: Mailbox)
    ensures var t := Stored(rows, h, part, m);
      && (forall u :: u in t <==> u in rows || (h < u && u in part))
      && (forall u :: u in t ==> t[u] == if u in part && h < u then m.FlagsOf(u) else rows[u])
    decreases |part|
  {
    if part != [] {
      StoredMeaning(if part[0] <= h then rows else rows[part[0] := m.FlagsOf(part[0])], h, part[1..], m);
      assert forall u :: u in part <==> u == part[0] || u in part[1..];
    }
  }

  lemma {:induction false} NewUidsMeaning(h: Uid, part: seq<Uid>)
    ensures forall u :: u in NewUids(h, part) <==> u in part && h < u
  {
    if part != [] {
      NewUidsMeaning(h, part[1..]);
      assert forall u :: u in part <==> u == part[0] || u in part[1..];
    }
  }

  lemma PrefixBelow(s: seq<Uid>, n: nat, u: Uid, w: Uid)
    requires Mirror.Ascending(s) && u in s && w in Prefix(s, n) && u <= w
    ensures u in Prefix(s, n)
  {
    var i :| 0 <= i < |s| && s[i] == u;
    var j :| 0 <= j < |Prefix(s, n)| && Prefix(s, n)[j] == w;
    assert s[j] == w && i <= j;
    assert Prefix(s, n)[i] == u;
  }

  /** A resumed pass cut at any call leaves every server message up to the highest row cached. */
  lemma ResumeKeepsCovered(rows: Rows, h: Uid, numMessages: nat, m: Mailbox, stop: nat)
    requires ValidMailbox(m) && Mirror.IsHighest(rows.Keys, h) && Mirror.GapFree(m.msgs.Keys, rows.Keys)
    ensures Mirror.GapFree(m.msgs.Keys, Stored(rows, h, Reached(h, numMessages, m, stop), m).Keys)
  {
    FetchAnswerIs(m.order, h, m.msgs.Keys);
    var part := Reached(h, numMessages, m, stop);
    StoredMeaning(rows, h, part, m);
    forall u, w | u in m.msgs && w in Stored(rows, h, part, m) && u <= w
      ensures u in Stored(rows, h, part, m)
    {
      if w !in rows && h < u {
        PrefixBelow(FetchAnswer(m.order, h), stop - 2, u, w);
      }
    }
  }

  /** A completed resumed pass holds every server message and no row from nowhere. */
  lemma CompleteResumeCoversMailbox(rows: Rows, h: Uid, m: Mailbox, stop: nat)
    requires ValidMailbox(m) && Mirror.IsHighest(rows.Keys, h) && Mirror.GapFree(m.msgs.Keys, rows.Keys)
    requires ResumeCalls(h, |m.order|, m) <= stop
    ensures m.msgs.Keys <= Stored(rows, h, Reached(h, |m.order|, m, stop), m).Keys <= rows.Keys + m.msgs.Keys
  {
    FetchAnswerIs(m.order, h, m.msgs.Keys);
    StoredMeaning(rows, h, Reached(h, |m.order|, m, stop), m);
    if |m.order| != 0 {
      assert Reached(h, |m.order|, m, stop) == FetchAnswer(m.order, h);
    }
  }

  /** The last message is answered again when nothing is new; it is not above the window, so nothing is stored. */
  lemma NothingNewNothingStored(rows: Rows, h: Uid, numMessages: nat, m: Mailbox, stop: nat)
    requires ValidMailbox(m) && Mirror.IsHighest(rows.Keys, h) && rows.Keys - {0} == m.msgs.Keys
    ensures Stored(rows, h, Reached(h, numMessages, m, stop), m) == rows
    ensures NewUids(h, Reached(h, numMessages, m, stop)) == []
  {
    FetchAnswerIs(m.order, h, m.msgs.Keys);
    var part := Reached(h, numMessages, m, stop);
    StoredMeaning(rows, h, part, m);
    var added := NewUids(h, part);
    if added != [] {
      assert added[0] in added;
      NewUidsMeaning(h, part);
    }
  }

  /**
    With the server quiet, one completed sync and one reconciliation make the cached UIDs the mailbox's; a second
    time round no message row is written and nothing reported.  It completes exactly if all the calls of the sync do.
    Rows without a UID, under 0, are left alone.
   */
  method Converge(f: Folder, server: Mailbox, stop: nat) returns (ok: bool, reported: seq<Uid>, ghost window: Uid)
    requires ValidMailbox(server)
    requires Wipes(f.uidValidity, SelectOf(server)) || Mirror.GapFree(server.msgs.Keys, f.rows.Keys)
    modifies f
    ensures
      var wipes := Wipes(old(f.uidValidity), SelectOf(server));
      var before := if wipes then 2 else 1;
      && (before <= stop ==> Mirror.IsHighest(if wipes then {} else old(f.rows).Keys, window))
      && (ok <==> before + ResumeCalls(window, |server.order|, server) <= stop)
    ensures ok ==> f.rows.Keys - {0} == server.msgs.Keys
    ensures ok ==> f.uidValidity == server.validity && f.highestModSeq == server.highestModSeq
    ensures old(f.uidValidity) == server.validity && old(f.rows).Keys - {0} == server.msgs.Keys
      ==> f.rows == old(f.rows) && f.writes == old(f.writes) && reported == []
  {
    ghost var wipes := Wipes(f.uidValidity, SelectOf(server));
    ghost var kept := if wipes then map[] else f.rows;
    ok, reported, window := f.SyncFolder(f.uidValidity, SelectOf(server), server, stop);
    if old(f.uidValidity) == server.validity && old(f.rows).Keys - {0} == server.msgs.Keys && 0 < stop {
      NothingNewNothingStored(kept, window, |server.order|, server, stop - 1);
    }
    if !ok { return; }
    CompleteResumeCoversMailbox(kept, window, server, if wipes then stop - 2 else stop - 1);
    f.ReconcileExpunged(server);
  }

  /**
    A completed sync of an unwiped cache stores the SELECT's HIGHESTMODSEQ without re-reading older rows: from a sound
    anchor, the new one is sound if and only if a refresh just before would have found nothing to write.
   */
  lemma ResyncKeepsSoundnessIff(rows: Rows, anchor: nat, h: Uid, m: Mailbox, stop: nat)
    requires ValidMailbox(m) && Mirror.IsHighest(rows.Keys, h) && Sound(rows, anchor, m)
    ensures Sound(Stored(rows, h, Reached(h, |m.order|, m, stop), m), m.highestModSeq, m)
      <==> Differing(rows, FlagAnswer(true, anchor, m, m.order), m) == []
  {
    FetchAnswerIs(m.order, h, m.msgs.Keys);
    StoredMeaning(rows, h, Reached(h, |m.order|, m, stop), m);
    var changed := FlagAnswer(true, anchor, m, m.order);
    FlagAnswerHas(true, anchor, m, m.order);
    DifferingMeaning(rows, changed, m);
    var differing := Differing(rows, changed, m);
    if differing != [] { assert differing[0] in differing; }
  }
}
