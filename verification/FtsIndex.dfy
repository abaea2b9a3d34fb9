/**
  The message table with the full-text index its triggers maintain, across the schema versions, and the search
  that reads the index.
 */
module FtsIndex {
  datatype Column = FromAddr | FromName | Subject | Snippet | BodyText

  datatype Message = Message(
    accountId: nat, folderId: nat, uid: nat, threadId: string,
    fromAddr: string, fromName: string, subject: string, snippet: string, bodyText: string, bodyHtml: string,
    hasAttachments: bool, isRead: bool, isFlagged: bool, isDeleted: bool,
    date: int, flags: string, snoozeUntil: int)

  type Rows = map<nat, Message>

  /** A token of a row's column, with its position there. */
  datatype Posting = Posting(id: nat, col: Column, token: string, pos: nat)

  type Index = multiset<Posting>

  /** Splits a column's text into tokens; the tokenizer itself is not modelled. */
  type Tokenizer = string -> seq<string>

  const NEWEST: nat := 5

  function Text(m: Message, col: Column): string {
    match col
    case FromAddr => m.fromAddr
    case FromName => m.fromName
    case Subject => m.subject
    case Snippet => m.snippet
    case BodyText => m.bodyText
  }

  /** The indexed columns of a schema version: message bodies joined the index in version 2. */
  function Columns(version: nat): seq<Column> {
    if version < 2 then [FromAddr, FromName, Subject, Snippet] else [FromAddr, FromName, Subject, Snippet, BodyText]
  }

  function ColumnPostings(tok: Tokenizer, id: nat, m: Message, col: Column): Index {
    var tokens := tok(Text(m, col));
    multiset(seq(|tokens|, i requires 0 <= i < |tokens| => Posting(id, col, tokens[i], i)))
  }

  /** The postings of one row over a list of columns. */
  function Postings(tok: Tokenizer, cols: seq<Column>, id: nat, m: Message): Index {
    if cols == [] then multiset{}
    else ColumnPostings(tok, id, m, cols[0]) + Postings(tok, cols[1..], id, m)
  }

  /** The index holds exactly the postings of the current rows. */
  ghost predicate Agrees(tok: Tokenizer, version: nat, rows: Rows, index: Index) {
    forall p: Posting :: index[p] == if p.id in rows then Postings(tok, Columns(version), p.id, rows[p.id])[p] else 0
  }

  lemma {:induction false} PostingsAreOwn(tok: Tokenizer, cols: seq<Column>, id: nat, m: Message)
    ensures forall p: Posting :: p in Postings(tok, cols, id, m) ==> p.id == id
  {
    if cols != [] {
      PostingsAreOwn(tok, cols[1..], id, m);
    }
  }

  /** A row's postings in a column are the tokens of its text, each at its position. */
  lemma {:induction false} PostingsAreTokens(tok: Tokenizer, cols: seq<Column>, id: nat, m: Message, p: Posting)
    requires p.id == id
    ensures p in Postings(tok, cols, id, m) <==>
      p.col in cols && var tokens := tok(Text(m, p.col)); p.pos < |tokens| && tokens[p.pos] == p.token
  {
    if cols != [] {
      var tokens := tok(Text(m, cols[0]));
      var ps := seq(|tokens|, i requires 0 <= i < |tokens| => Posting(id, cols[0], tokens[i], i));
      PostingsAreTokens(tok, cols[1..], id, m, p);
      if p.col == cols[0] && p.pos < |tokens| && tokens[p.pos] == p.token {
        assert ps[p.pos] == p;
      }
    }
  }

  /**
    Does the AFTER UPDATE trigger fire?  `named` is the indexed columns that the statement's SET list names; from
    version 5 on the trigger is restricted to statements that name one.
   */
  predicate UpdateFires(version: nat, named: set<Column>) {
    version < 5 || named != {}
  }

  /** Of the indexed columns, `now` differs from `was` at most in those named. */
  ghost predicate ChangesOnly(was: Message, now: Message, named: set<Column>) {
    forall col :: Text(was, col) != Text(now, col) ==> col in named
  }

  lemma {:induction false} SameTextSamePostings(tok: Tokenizer, cols: seq<Column>, id: nat, m: Message, m': Message)
    requires forall col :: Text(m, col) == Text(m', col)
    ensures Postings(tok, cols, id, m) == Postings(tok, cols, id, m')
  {
    if cols != [] {
      SameTextSamePostings(tok, cols[1..], id, m, m');
    }
  }

  lemma AgreesAfterInsert(tok: Tokenizer, version: nat, rows: Rows, index: Index, id: nat, m: Message)
    requires Agrees(tok, version, rows, index) && id !in rows
    ensures Agrees(tok, version, rows[id := m], index + Postings(tok, Columns(version), id, m))
  {
    PostingsAreOwn(tok, Columns(version), id, m);
  }

  lemma AgreesAfterDelete(tok: Tokenizer, version: nat, rows: Rows, index: Index, id: nat)
    requires Agrees(tok, version, rows, index) && id in rows
    ensures Agrees(tok, version, rows - {id}, index - Postings(tok, Columns(version), id, rows[id]))
  {
    PostingsAreOwn(tok, Columns(version), id, rows[id]);
  }

  lemma AgreesAfterUpdate(tok: Tokenizer, version: nat, rows: Rows, index: Index, id: nat, m: Message)
    requires Agrees(tok, version, rows, index) && id in rows
    ensures Agrees(tok, version, rows[id := m],
                   index - Postings(tok, Columns(version), id, rows[id]) + Postings(tok, Columns(version), id, m))
  {
    AgreesAfterDelete(tok, version, rows, index, id);
    AgreesAfterInsert(tok, version, rows - {id}, index - Postings(tok, Columns(version), id, rows[id]), id, m);
    assert (rows - {id})[id := m] == rows[id := m];
  }

  /** The narrowed trigger leaves the same index behind as the unconditional one, whatever the statement names. */
  lemma NarrowTriggerRefines(tok: Tokenizer, version: nat, rows: Rows, index: Index, id: nat, m: Message,
                             named: set<Column>)
    requires Agrees(tok, version, rows, index) && id in rows && ChangesOnly(rows[id], m, named)
    ensures var fired := index - Postings(tok, Columns(version), id, rows[id]) + Postings(tok, Columns(version), id, m);
      !UpdateFires(version, named) ==> fired == index
  {
    if !UpdateFires(version, named) {
      SameTextSamePostings(tok, Columns(version), id, rows[id], m);
      forall p: Posting
        ensures Postings(tok, Columns(version), id, rows[id])[p] <= index[p]
      {
        PostingsAreOwn(tok, Columns(version), id, rows[id]);
      }
    }
  }

  /** At most one row per (account, folder, UID). */
  ghost predicate Unique(rows: Rows) {
    forall i, j :: i in rows && j in rows && SameKey(rows[i], rows[j]) ==> i == j
  }

  predicate SameKey(m: Message, n: Message) {
    m.accountId == n.accountId && m.folderId == n.folderId && m.uid == n.uid
  }

  lemma UpdateKeepsUnique(rows: Rows, id: nat, m: Message)
    requires Unique(rows) && id in rows && SameKey(rows[id], m)
    ensures Unique(rows[id := m])
  {
  }

  /** The INSERT names every column but the snooze, which starts at its default. */
  function Inserted(m: Message): Message {
    m.(snoozeUntil := 0)
  }

  /** The ON CONFLICT DO UPDATE of UpsertMessage: sender, subject, date and snooze stay. */
  function Merged(was: Message, m: Message): Message {
    was.(threadId := m.threadId, snippet := m.snippet,
         bodyText := if m.bodyText != "" then m.bodyText else was.bodyText,
         bodyHtml := if m.bodyHtml != "" then m.bodyHtml else was.bodyHtml,
         hasAttachments := m.hasAttachments, isRead := m.isRead, isFlagged := m.isFlagged,
         isDeleted := m.isDeleted, flags := m.flags)
  }

  /** The row after any number of further upserts of the same message. */
  function MergedAll(was: Message, updates: seq<Message>): Message {
    if updates == [] then was else Merged(MergedAll(was, updates[..|updates| - 1]), updates[|updates| - 1])
  }

  /** The bodies fetched so far: an upsert of an envelope alone carries none. */
  function LastBody(body: string, updates: seq<Message>): string {
    if updates == [] then body
    else if updates[|updates| - 1].bodyText != "" then updates[|updates| - 1].bodyText
    else LastBody(body, updates[..|updates| - 1])
  }

  function LastHtml(html: string, updates: seq<Message>): string {
    if updates == [] then html
    else if updates[|updates| - 1].bodyHtml != "" then updates[|updates| - 1].bodyHtml
    else LastHtml(html, updates[..|updates| - 1])
  }

  /**
    However often a message is upserted, the row keeps what the first upsert named it by and the user's snooze,
    carries the last bodies fetched, and takes all the rest from the last upsert.
   */
  lemma {:induction false} UpsertsKeepIdentityAndBody(was: Message, updates: seq<Message>)
    ensures var m := MergedAll(was, updates);
      && SameKey(m, was) && m.fromAddr == was.fromAddr && m.fromName == was.fromName && m.subject == was.subject
      && m.date == was.date && m.snoozeUntil == was.snoozeUntil
      && m.bodyText == LastBody(was.bodyText, updates) && m.bodyHtml == LastHtml(was.bodyHtml, updates)
    ensures updates != [] ==> var m, last := MergedAll(was, updates), updates[|updates| - 1];
      && m.flags == last.flags && m.isRead == last.isRead && m.isFlagged == last.isFlagged
      && m.isDeleted == last.isDeleted && m.threadId == last.threadId && m.snippet == last.snippet
      && m.hasAttachments == last.hasAttachments
    decreases |updates|
  {
    if updates != [] { UpsertsKeepIdentityAndBody(was, updates[..|updates| - 1]); }
  }

  /** So much for a row's whole life: what the first upsert wrote, and what became of it. */
  lemma RowAfterUpserts(first: Message, updates: seq<Message>)
    ensures var m := MergedAll(Inserted(first), updates);
      && SameKey(m, first) && m.fromAddr == first.fromAddr && m.fromName == first.fromName
      && m.subject == first.subject && m.date == first.date && m.snoozeUntil == 0
      && m.bodyText == LastBody(first.bodyText, updates) && m.bodyHtml == LastHtml(first.bodyHtml, updates)
    ensures updates == [] ==> MergedAll(Inserted(first), updates) == first.(snoozeUntil := 0)
  {
    UpsertsKeepIdentityAndBody(Inserted(first), updates);
  }

  datatype BoolColumn = IsRead | IsFlagged | IsDeleted

  function SetBool(m: Message, col: BoolColumn, v: bool): Message {
    match col
    case IsRead => m.(isRead := v)
    case IsFlagged => m.(isFlagged := v)
    case IsDeleted => m.(isDeleted := v)
  }

  datatype FlagUpdate = FlagUpdate(folderId: nat, uid: nat, flags: string, isRead: bool, isFlagged: bool)

  function Reflagged(m: Message, u: FlagUpdate): Message {
    if m.folderId == u.folderId && m.uid == u.uid
    then m.(flags := u.flags, isRead := u.isRead, isFlagged := u.isFlagged) else m
  }

  class Database {
    const tok: Tokenizer
    var version: nat
    var rows: Rows
    var index: Index

    ghost predicate Valid()
      reads this
    {
      1 <= version <= NEWEST && Unique(rows) && Agrees(tok, version, rows, index)
    }

    /** A fresh database at version 1. */
    constructor (tok: Tokenizer)
      ensures Valid() && this.tok == tok && rows == map[] && version == 1
    {
      this.tok, version, rows, index := tok, 1, map[], multiset{};
    }

    /** One row of an UPDATE statement naming `named`. */
    method UpdateRow(id: nat, m: Message, named: set<Column>)
      requires Valid() && id in rows && ChangesOnly(rows[id], m, named) && SameKey(rows[id], m)
      modifies this`rows, this`index
      ensures Valid() && rows == old(rows)[id := m]
    {
      AgreesAfterUpdate(tok, version, rows, index, id, m);
      NarrowTriggerRefines(tok, version, rows, index, id, m, named);
      UpdateKeepsUnique(rows, id, m);
      if UpdateFires(version, named) {
        index := index - Postings(tok, Columns(version), id, rows[id]) + Postings(tok, Columns(version), id, m);
      }
      rows := rows[id := m];
    }

    method FindByKey(m: Message) returns (found: bool, id: nat)
      ensures found ==> id in rows && SameKey(rows[id], m)
      ensures !found ==> forall i :: i in rows ==> !SameKey(rows[i], m)
    {
      var left := rows.Keys;
      while left != {}
        invariant left <= rows.Keys
        invariant forall i :: i in rows && i !in left ==> !SameKey(rows[i], m)
        decreases |left|
      {
        id :| id in left;
        if SameKey(rows[id], m) { return true, id; }
        left := left - {id};
      }
      return false, 0;
    }

    method InsertRow(id: nat, m: Message)
      requires Valid() && id !in rows && forall i :: i in rows ==> !SameKey(rows[i], m)
      modifies this`rows, this`index
      ensures Valid() && rows == old(rows)[id := m]
    {
      AgreesAfterInsert(tok, version, rows, index, id, m);
      index := index + Postings(tok, Columns(version), id, m);
      rows := rows[id := m];
    }

    /** Inserts, or updates the row with the same key; `newId` is the rowid SQLite would assign. */
    method UpsertMessage(m: Message, newId: nat) returns (id: nat)
      requires Valid() && newId !in rows
      modifies this`rows, this`index
      ensures Valid()
      ensures (exists i :: i in old(rows) && SameKey(old(rows)[i], m)) ==>
        id in old(rows) && SameKey(old(rows)[id], m) && rows == old(rows)[id := Merged(old(rows)[id], m)]
      ensures (forall i :: i in old(rows) ==> !SameKey(old(rows)[i], m))
        ==> id == newId && rows == old(rows)[newId := Inserted(m)]
    {
      var found;
      found, id := FindByKey(m);
      if found {
        UpdateRow(id, Merged(rows[id], m), {Snippet, BodyText});
      } else {
        id := newId;
        InsertRow(id, Inserted(m));
      }
    }

    method SetMessageBool(id: nat, col: BoolColumn, v: bool) returns (found: bool)
      requires Valid()
      modifies this`rows, this`index
      ensures Valid() && found == (id in old(rows))
      ensures rows == if found then old(rows)[id := SetBool(old(rows)[id], col, v)] else old(rows)
      ensures found ==> var was := old(rows)[id];
        match col
        case IsRead => rows[id] == was.(isRead := v)
        case IsFlagged => rows[id] == was.(isFlagged := v)
        case IsDeleted => rows[id] == was.(isDeleted := v)
    {
      found := id in rows;
      if found { UpdateRow(id, SetBool(rows[id], col, v), {}); }
    }

    method SetSnooze(id: nat, until: int) returns (found: bool)
      requires Valid()
      modifies this`rows, this`index
      ensures Valid() && found == (id in old(rows))
      ensures rows == if found then old(rows)[id := old(rows)[id].(snoozeUntil := until)] else old(rows)
    {
      found := id in rows;
      if found { UpdateRow(id, rows[id].(snoozeUntil := until), {}); }
    }

    method ReflagRow(id: nat, u: FlagUpdate)
      requires Valid() && id in rows
      modifies this`rows, this`index
      ensures Valid() && rows == old(rows)[id := Reflagged(old(rows)[id], u)]
    {
      if rows[id].folderId == u.folderId && rows[id].uid == u.uid {
        UpdateRow(id, Reflagged(rows[id], u), {});
      } else {
        assert rows[id := rows[id]] == rows;
      }
    }

    /** Server-reported flags onto every row of (folder, UID). */
    method UpdateMessageFlags(u: FlagUpdate)
      requires Valid()
      modifies this`rows, this`index
      ensures Valid() && rows == map i | i in old(rows) :: Reflagged(old(rows)[i], u)
      ensures rows.Keys == old(rows).Keys && forall i :: i in rows ==> var was := old(rows)[i];
        rows[i] == if was.folderId == u.folderId && was.uid == u.uid
                   then was.(flags := u.flags, isRead := u.isRead, isFlagged := u.isFlagged) else was
    {
      ghost var was := rows;
      ghost var goal := map i | i in rows :: Reflagged(rows[i], u);
      var left := rows.Keys;
      while left != {}
        invariant Valid() && left <= was.Keys && rows.Keys == was.Keys
        invariant forall i :: i in was ==> rows[i] == if i in left then was[i] else goal[i]
        decreases |left|
      {
        var i :| i in left;
        ReflagRow(i, u);
        left := left - {i};
      }
      assert rows == goal;
    }

    method DeleteLocalMessage(id: nat) returns (found: bool)
      requires Valid()
      modifies this`rows, this`index
      ensures Valid() && found == (id in old(rows)) && rows == old(rows) - {id}
    {
      found := id in rows;
      if found {
        AgreesAfterDelete(tok, version, rows, index, id);
        index := index - Postings(tok, Columns(version), id, rows[id]);
        rows := rows - {id};
      } else {
        assert rows - {id} == rows;
      }
    }

    /** A bulk delete, the trigger firing per row: stale UIDs, a cleared folder, a cascaded account. */
    method DeleteRows(ids: set<nat>)
      requires Valid()
      modifies this`rows, this`index
      ensures Valid() && rows == old(rows) - ids
    {
      ghost var was := rows;
      var left := ids;
      while left != {}
        invariant Valid() && left <= ids
        invariant forall i :: i in rows <==> i in was && (i in ids ==> i in left)
        invariant forall i :: i in rows ==> rows[i] == was[i]
        decreases |left|
      {
        var id :| id in left;
        var _ := DeleteLocalMessage(id);
        left := left - {id};
      }
      assert rows == was - ids;
    }

    /** The 'rebuild' of the index from the current rows, over the columns of version 2. */
    method Rebuild()
      requires Unique(rows)
      modifies this`index
      ensures Agrees(tok, 2, rows, index)
    {
      index := multiset{};
      ghost var seen: Rows := map[];
      var left := rows.Keys;
      while left != {}
        invariant left <= rows.Keys && seen.Keys == rows.Keys - left
        invariant forall i :: i in seen ==> seen[i] == rows[i]
        invariant Agrees(tok, 2, seen, index)
        decreases |left|
      {
        var id :| id in left;
        AgreesAfterInsert(tok, 2, seen, index, id, rows[id]);
        index := index + Postings(tok, Columns(2), id, rows[id]);
        seen := seen[id := rows[id]];
        left := left - {id};
      }
      assert seen == rows;
    }

    /** Brings the schema to the newest version one migration at a time. */
    method Migrate()
      requires Valid()
      modifies this`version, this`index
      ensures Valid() && version == NEWEST
    {
      while version < NEWEST
        invariant Valid()
        decreases NEWEST - version
      {
        if version == 1 { Rebuild(); }
        version := version + 1;
      }
    }
  }
}
