/** What a search answers, read off the fields the user typed and the texts of the messages. */
module SearchMeaning {
  import opened Ascii
  import opened FtsIndex
  import opened Queries = Search

  // ----- the meaning of a field -----

  /** An operand loses its quotes and nothing else. */
  lemma {:induction false} UnquotedMeaning(s: string, t: string)
    ensures Unquoted(s + "\"" + t) == Unquoted(s + t)
    ensures '"' !in s ==> Unquoted(s) == s
  {
    if s == "" {
      assert s + "\"" + t == ['"'] + t && s + t == t;
      assert (['"'] + t)[1..] == t;
    } else {
      UnquotedMeaning(s[1..], t);
      assert (s + "\"" + t)[1..] == s[1..] + "\"" + t && (s + t)[1..] == s[1..] + t;
    }
  }

  predicate IsScoped(field: string) {
    || (HasPrefix(Lower(field), "from:") && |field| > 5)
    || (HasPrefix(Lower(field), "subject:") && |field| > 8)
  }

  /** The field searches for a text: in some columns, or being no operator in all. */
  predicate IsText(field: string) {
    IsScoped(field) || (!IsOperator(field) && Unquoted(field) != "")
  }

  function Operand(field: string): string {
    if HasPrefix(Lower(field), "from:") && |field| > 5 then Unquoted(field[5..])
    else if HasPrefix(Lower(field), "subject:") && |field| > 8 then Unquoted(field[8..])
    else Unquoted(field)
  }

  /** The text holds the operand's tokens one after another, the last of them perhaps only begun. */
  ghost predicate Holds(tok: Tokenizer, text: string, operand: string) {
    exists pos: nat :: HoldsAt(tok(text), tok(operand), pos)
  }

  ghost predicate HoldsAt(tokens: seq<string>, phrase: seq<string>, pos: nat) {
    && phrase != [] && pos + |phrase| <= |tokens|
    && (forall k :: 0 <= k < |phrase| - 1 ==> tokens[pos + k] == phrase[k])
    && HasPrefix(tokens[pos + |phrase| - 1], phrase[|phrase| - 1])
  }

  /** The message says what the field asks for. */
  ghost predicate Says(tok: Tokenizer, m: Message, field: string) {
    var x := Operand(field);
    if HasPrefix(Lower(field), "from:") then Holds(tok, m.fromAddr, x) || Holds(tok, m.fromName, x)
    else if HasPrefix(Lower(field), "subject:") then Holds(tok, m.subject, x)
    else
      || Holds(tok, m.fromAddr, x) || Holds(tok, m.fromName, x) || Holds(tok, m.subject, x)
      || Holds(tok, m.snippet, x) || Holds(tok, m.bodyText, x)
  }

  /** The date given to an operator, if it can be read. */
  function DateOf(field: string, op: string, dates: DateParser): Option<int> {
    if HasPrefix(Lower(field), op) && |op| <= |field| then dates(field[|op|..]) else None
  }

  /** The last readable date given to the operator stands in field i. */
  ghost predicate IsLastDate(fields: seq<string>, op: string, dates: DateParser, i: nat) {
    && i < |fields| && DateOf(fields[i], op, dates).Some?
    && forall j :: i < j < |fields| ==> DateOf(fields[j], op, dates).None?
  }

  ghost predicate NoDate(fields: seq<string>, op: string, dates: DateParser) {
    forall j :: 0 <= j < |fields| ==> DateOf(fields[j], op, dates).None?
  }

  // ----- what is parsed -----

  ghost predicate DateIs(d: Option<int>, fields: seq<string>, op: string, dates: DateParser) {
    && (forall i: nat :: IsLastDate(fields, op, dates, i) ==> d == DateOf(fields[i], op, dates))
    && (NoDate(fields, op, dates) ==> d == None)
  }

  lemma DateSnoc(d: Option<int>, fields: seq<string>, field: string, op: string, dates: DateParser)
    requires DateIs(d, fields, op, dates)
    ensures var e := DateOf(field, op, dates); DateIs(if e.Some? then e else d, fields + [field], op, dates)
  {
    var all := fields + [field];
    assert all[|fields|] == field && forall j :: 0 <= j < |fields| ==> all[j] == fields[j];
    forall i: nat | IsLastDate(all, op, dates, i)
      ensures i < |fields| ==> IsLastDate(fields, op, dates, i)
    {
    }
    if NoDate(all, op, dates) {
      forall j | 0 <= j < |fields| ensures DateOf(fields[j], op, dates).None? { assert all[j] == fields[j]; }
    }
  }

  lemma FieldDates(q: Query, field: string, dates: DateParser)
    ensures var r := ParseField(q, field, dates);
      var b, a := DateOf(field, "before:", dates), DateOf(field, "after:", dates);
      r.before == (if b.Some? then b else q.before) && r.after == (if a.Some? then a else q.after)
  {
    OperatorsDiffer(field);
  }

  /** No field spells two operators. */
  lemma OperatorsDiffer(field: string)
    ensures var l := Lower(field);
      && |l| == |field|
      && (HasPrefix(l, "from:") ==> l[0] == 'f') && (HasPrefix(l, "subject:") ==> l[0] == 's')
      && (HasPrefix(l, "before:") ==> l[0] == 'b') && (HasPrefix(l, "after:") ==> l[0] == 'a')
      && (l == "has:attachment" ==> l[0] == 'h') && (l == "is:unread" ==> l[0] == 'i')
  {
    assert "from:"[0] == 'f' && "subject:"[0] == 's' && "before:"[0] == 'b' && "after:"[0] == 'a';
  }

  ghost predicate AreColumns(field: string, cols: set<Column>) {
    cols == if HasPrefix(Lower(field), "from:") then {FromAddr, FromName}
            else if HasPrefix(Lower(field), "subject:") then {Subject}
            else {FromAddr, FromName, Subject, Snippet, BodyText}
  }

  /** A field adds one term or none, and sets the flags its operator names. */
  lemma FieldTerm(q: Query, field: string, dates: DateParser) returns (t: Term)
    ensures IsText(field) ==>
      && t.operand == Operand(field) && t.Scoped? == IsScoped(field) && AreColumns(field, TermColumns(t))
    ensures ParseField(q, field, dates).terms == q.terms + (if IsText(field) then [t] else [])
  {
    OperatorsDiffer(field);
    t := Bare("");
    var terms := ParseField(q, field, dates).terms;
    if IsText(field) {
      t := terms[|q.terms|];
    } else {
      assert q.terms + [] == q.terms;
    }
  }

  lemma {:induction false} PhraseIs(tokens: seq<string>, pos: nat, phrase: seq<string>)
    requires phrase != []
    ensures PhraseAt(tokens, pos, phrase) <==> HoldsAt(tokens, phrase, pos)
    decreases |phrase|
  {
    if |phrase| > 1 {
      var rest := phrase[1..];
      PhraseIs(tokens, pos + 1, rest);
      if HoldsAt(tokens, phrase, pos) {
        assert tokens[pos + 0] == phrase[0];
        forall k | 0 <= k < |rest| - 1 ensures tokens[pos + 1 + k] == rest[k] {
          assert tokens[pos + (k + 1)] == phrase[k + 1];
        }
      }
      if PhraseAt(tokens, pos, phrase) {
        forall k | 0 <= k < |phrase| - 1 ensures tokens[pos + k] == phrase[k] {
          if k > 0 { assert tokens[pos + 1 + (k - 1)] == rest[k - 1]; }
        }
      }
    }
  }

  /** A term with tokens matches in a column exactly if the column's text holds its operand. */
  lemma ColumnHolds(tok: Tokenizer, text: string, operand: string)
    requires tok(operand) != []
    ensures (exists pos: nat :: PhraseAt(tok(text), pos, tok(operand))) <==> Holds(tok, text, operand)
  {
    if pos: nat :| PhraseAt(tok(text), pos, tok(operand)) { PhraseIs(tok(text), pos, tok(operand)); }
    if pos: nat :| HoldsAt(tok(text), tok(operand), pos) { PhraseIs(tok(text), pos, tok(operand)); }
  }

  lemma TermHolds(tok: Tokenizer, m: Message, t: Term)
    requires tok(t.operand) != []
    ensures TermMatches(tok, m, t) <==> exists col :: col in TermColumns(t) && Holds(tok, Text(m, col), t.operand)
  {
    forall col
      ensures (exists pos: nat :: PhraseAt(tok(Text(m, col)), pos, tok(t.operand)))
          <==> Holds(tok, Text(m, col), t.operand)
    {
      ColumnHolds(tok, Text(m, col), t.operand);
    }
  }

  lemma SaysIs(tok: Tokenizer, m: Message, field: string, t: Term)
    requires t.operand == Operand(field) && AreColumns(field, TermColumns(t)) && tok(t.operand) != []
    ensures TermMatches(tok, m, t) <==> Says(tok, m, field)
  {
    TermHolds(tok, m, t);
    assert Text(m, FromAddr) == m.fromAddr && Text(m, FromName) == m.fromName && Text(m, Subject) == m.subject;
    assert Text(m, Snippet) == m.snippet && Text(m, BodyText) == m.bodyText;
  }

  ghost predicate SomeText(fields: seq<string>) {
    exists i :: 0 <= i < |fields| && IsText(fields[i])
  }

  ghost predicate SomeScoped(fields: seq<string>) {
    exists i :: 0 <= i < |fields| && IsScoped(fields[i])
  }

  /** Some field searches for a text of one token at least. */
  ghost predicate SomeVocal(tok: Tokenizer, fields: seq<string>) {
    exists i :: 0 <= i < |fields| && IsText(fields[i]) && tok(Operand(fields[i])) != []
  }

  ghost predicate AllSaid(tok: Tokenizer, m: Message, fields: seq<string>) {
    forall i :: 0 <= i < |fields| && IsText(fields[i]) && tok(Operand(fields[i])) != [] ==> Says(tok, m, fields[i])
  }

  /** A scoped field beside another text, or an operand that FTS5 cannot read to its end. */
  ghost predicate Refused(fields: seq<string>) {
    || (exists i, j :: 0 <= i < |fields| && 0 <= j < |fields| && i != j && IsScoped(fields[i]) && IsText(fields[j]))
    || (exists i :: 0 <= i < |fields| && IsText(fields[i]) && '\0' in Operand(fields[i]))
  }

  ghost predicate TermsAre(tok: Tokenizer, terms: seq<Term>, fields: seq<string>) {
    && (terms != [] <==> SomeText(fields))
    && (Vocal(tok, terms) <==> SomeVocal(tok, fields))
    && ((exists i :: 0 <= i < |terms| && terms[i].Scoped?) <==> SomeScoped(fields))
    && (Answerable(terms) <==> !Refused(fields))
  }

  lemma ConcatHas(fields: seq<string>, field: string)
    ensures var all := fields + [field];
      && all[|fields|] == field && (forall i :: 0 <= i < |fields| ==> all[i] == fields[i])
  {
  }

  lemma TextSnoc(tok: Tokenizer, m: Message, fields: seq<string>, field: string)
    ensures var all := fields + [field];
      && (SomeText(all) <==> SomeText(fields) || IsText(field))
      && (SomeScoped(all) <==> SomeScoped(fields) || IsScoped(field))
      && (SomeVocal(tok, all) <==> SomeVocal(tok, fields) || (IsText(field) && tok(Operand(field)) != []))
      && (AllSaid(tok, m, all) <==>
            AllSaid(tok, m, fields) && (IsText(field) && tok(Operand(field)) != [] ==> Says(tok, m, field)))
  {
    ConcatHas(fields, field);
  }

  lemma RefusedSnoc(fields: seq<string>, field: string)
    ensures Refused(fields + [field]) <==>
      || Refused(fields) || (IsScoped(field) && SomeText(fields)) || (IsText(field) && SomeScoped(fields))
      || (IsText(field) && '\0' in Operand(field))
  {
    ConcatHas(fields, field);
    var all := fields + [field];
    if IsScoped(field) && SomeText(fields) {
      var j :| 0 <= j < |fields| && IsText(fields[j]);
      assert IsScoped(all[|fields|]) && IsText(all[j]);
    }
    if IsText(field) && SomeScoped(fields) {
      var i :| 0 <= i < |fields| && IsScoped(fields[i]);
      assert IsScoped(all[i]) && IsText(all[|fields|]);
    }
  }

  lemma AnswerableSnoc(terms: seq<Term>, t: Term)
    ensures Answerable(terms + [t]) <==>
      && Answerable(terms) && '\0' !in t.operand
      && (terms == [] || (t.Bare? && forall i :: 0 <= i < |terms| ==> terms[i].Bare?))
    ensures (exists i :: 0 <= i < |terms + [t]| && (terms + [t])[i].Scoped?)
      <==> t.Scoped? || exists i :: 0 <= i < |terms| && terms[i].Scoped?
  {
    var all := terms + [t];
    assert all[|terms|] == t && forall i :: 0 <= i < |terms| ==> all[i] == terms[i];
  }

  lemma {:induction false} ParsedTerms(tok: Tokenizer, m: Message, fields: seq<string>, dates: DateParser)
    ensures var terms := ParseAll(EMPTY, fields, dates).terms;
      TermsAre(tok, terms, fields) && (MatchesTerms(tok, m, terms) <==> AllSaid(tok, m, fields))
    decreases |fields|
  {
    if fields != [] {
      var init, field := fields[..|fields| - 1], fields[|fields| - 1];
      assert fields == init + [field];
      ParsedTerms(tok, m, init, dates);
      var q := ParseAll(EMPTY, init, dates);
      ParseConcat(EMPTY, init, [field], dates);
      assert [field][1..] == [];
      var t := FieldTerm(q, field, dates);
      TextSnoc(tok, m, init, field);
      RefusedSnoc(init, field);
      if IsText(field) {
        TermSnoc(tok, m, q.terms, init, field, t);
      } else {
        assert q.terms + [] == q.terms;
      }
    }
  }

  lemma TermSnoc(tok: Tokenizer, m: Message, terms: seq<Term>, fields: seq<string>, field: string, t: Term)
    requires TermsAre(tok, terms, fields) && (MatchesTerms(tok, m, terms) <==> AllSaid(tok, m, fields))
    requires IsText(field) && t.operand == Operand(field) && t.Scoped? == IsScoped(field)
    requires AreColumns(field, TermColumns(t))
    ensures TermsAre(tok, terms + [t], fields + [field])
    ensures MatchesTerms(tok, m, terms + [t]) <==> AllSaid(tok, m, fields + [field])
  {
    TextSnoc(tok, m, fields, field);
    RefusedSnoc(fields, field);
    AnswerableSnoc(terms, t);
    ConcatHolds(tok, m, terms, [t]);
    assert [t][0] == t;
    if tok(t.operand) != [] { SaysIs(tok, m, field, t); }
  }

  lemma {:induction false} ParsedDates(fields: seq<string>, dates: DateParser)
    ensures var q := ParseAll(EMPTY, fields, dates);
      DateIs(q.before, fields, "before:", dates) && DateIs(q.after, fields, "after:", dates)
    decreases |fields|
  {
    if fields != [] {
      var init, field := fields[..|fields| - 1], fields[|fields| - 1];
      assert fields == init + [field];
      ParsedDates(init, dates);
      var q := ParseAll(EMPTY, init, dates);
      ParseConcat(EMPTY, init, [field], dates);
      assert [field][1..] == [];
      FieldDates(q, field, dates);
      DateSnoc(q.before, init, field, "before:", dates);
      DateSnoc(q.after, init, field, "after:", dates);
    }
  }

  // ----- the whole search -----

  ghost predicate Spelled(fields: seq<string>, op: string) {
    exists i :: 0 <= i < |fields| && Lower(fields[i]) == op
  }

  /** A date that bounds: the zero time does not. */
  ghost predicate BoundedBy(fields: seq<string>, op: string, dates: DateParser, x: int) {
    x != ZERO_TIME && exists i: nat :: IsLastDate(fields, op, dates, i) && DateOf(fields[i], op, dates) == Some(x)
  }

  /** What the fields ask of a message. */
  ghost predicate Meant(tok: Tokenizer, m: Message, accountId: nat, fields: seq<string>, dates: DateParser) {
    && m.accountId == accountId && !m.isDeleted
    && (Spelled(fields, "has:attachment") ==> m.hasAttachments)
    && (Spelled(fields, "is:unread") ==> !m.isRead)
    && (forall x :: BoundedBy(fields, "before:", dates, x) ==> m.date < x)
    && (forall x :: BoundedBy(fields, "after:", dates, x) ==> x < m.date)
    && AllSaid(tok, m, fields) && (SomeText(fields) ==> SomeVocal(tok, fields))
  }

  /** The fields ask for nothing at all. */
  ghost predicate AsksNothing(fields: seq<string>, dates: DateParser) {
    && !SomeText(fields) && !Spelled(fields, "has:attachment") && !Spelled(fields, "is:unread")
    && (forall x :: !BoundedBy(fields, "before:", dates, x)) && (forall x :: !BoundedBy(fields, "after:", dates, x))
  }

  lemma {:induction false} LastDate(fields: seq<string>, op: string, dates: DateParser)
    ensures NoDate(fields, op, dates) || exists i: nat :: IsLastDate(fields, op, dates, i)
    decreases |fields|
  {
    if fields != [] {
      var init, field := fields[..|fields| - 1], fields[|fields| - 1];
      assert fields == init + [field];
      if DateOf(field, op, dates).Some? {
        assert IsLastDate(fields, op, dates, |init|);
      } else {
        LastDate(init, op, dates);
        if i: nat :| IsLastDate(init, op, dates, i) {
          assert fields[i] == init[i];
          assert forall j :: i < j < |init| ==> fields[j] == init[j];
          assert IsLastDate(fields, op, dates, i);
        }
      }
    }
  }

  lemma BoundIs(d: Option<int>, fields: seq<string>, op: string, dates: DateParser, x: int)
    requires DateIs(d, fields, op, dates)
    ensures BoundedBy(fields, op, dates, x) <==> Bounds(d) && d.value == x
  {
    LastDate(fields, op, dates);
  }

  lemma ParsedBounds(fields: seq<string>, dates: DateParser)
    ensures var q := ParseAll(EMPTY, fields, dates);
      && (forall x :: BoundedBy(fields, "before:", dates, x) <==> Bounds(q.before) && q.before.value == x)
      && (forall x :: BoundedBy(fields, "after:", dates, x) <==> Bounds(q.after) && q.after.value == x)
  {
    ParsedDates(fields, dates);
    var q := ParseAll(EMPTY, fields, dates);
    forall x ensures BoundedBy(fields, "before:", dates, x) <==> Bounds(q.before) && q.before.value == x {
      BoundIs(q.before, fields, "before:", dates, x);
    }
    forall x ensures BoundedBy(fields, "after:", dates, x) <==> Bounds(q.after) && q.after.value == x {
      BoundIs(q.after, fields, "after:", dates, x);
    }
  }

  lemma ParsedFilters(m: Message, accountId: nat, fields: seq<string>, dates: DateParser)
    ensures Passes(m, accountId, ParseAll(EMPTY, fields, dates)) <==>
      && m.accountId == accountId && !m.isDeleted
      && (Spelled(fields, "has:attachment") ==> m.hasAttachments) && (Spelled(fields, "is:unread") ==> !m.isRead)
      && (forall x :: BoundedBy(fields, "before:", dates, x) ==> m.date < x)
      && (forall x :: BoundedBy(fields, "after:", dates, x) ==> x < m.date)
  {
    ParsedMeaning(EMPTY, fields, dates);
    ParsedBounds(fields, dates);
    var q := ParseAll(EMPTY, fields, dates);
    assert Bounds(q.before) ==> BoundedBy(fields, "before:", dates, q.before.value);
    assert Bounds(q.after) ==> BoundedBy(fields, "after:", dates, q.after.value);
  }

  /** What the fields ask for, refused and empty questions included, is what their query asks for. */
  lemma ParsedQuery(tok: Tokenizer, fields: seq<string>, dates: DateParser)
    ensures var q := ParseAll(EMPTY, fields, dates);
      (Answerable(q.terms) <==> !Refused(fields)) && (q.terms == [] && !HasFilters(q) <==> AsksNothing(fields, dates))
  {
    var m: Message := *;
    ParsedTerms(tok, m, fields, dates);
    ParsedMeaning(EMPTY, fields, dates);
    ParsedBounds(fields, dates);
    var q := ParseAll(EMPTY, fields, dates);
    assert Bounds(q.before) ==> BoundedBy(fields, "before:", dates, q.before.value);
    assert Bounds(q.after) ==> BoundedBy(fields, "after:", dates, q.after.value);
  }

  lemma ParsedIsMeant(tok: Tokenizer, m: Message, accountId: nat, fields: seq<string>, dates: DateParser)
    ensures Matches(tok, m, accountId, ParseAll(EMPTY, fields, dates)) <==> Meant(tok, m, accountId, fields, dates)
  {
    ParsedTerms(tok, m, fields, dates);
    ParsedFilters(m, accountId, fields, dates);
  }

  /** The search as the user meets it: refused exactly where said, else the messages that the fields ask for. */
  method SearchFields(db: Database, accountId: nat, fields: seq<string>, dates: DateParser)
    returns (found: Result<set<nat>>)
    requires db.Valid() && db.version == NEWEST
    ensures found.Ok? <==> !Refused(fields)
    ensures found.Ok? && AsksNothing(fields, dates) ==> found.value == {}
    ensures found.Ok? && !AsksNothing(fields, dates) ==> forall id ::
      id in found.value <==> id in db.rows && Meant(db.tok, db.rows[id], accountId, fields, dates)
  {
    var q := ParseQuery(fields, dates);
    found := Queries.Search(db, accountId, q);
    ghost var tok := db.tok;
    ParsedQuery(tok, fields, dates);
    forall m {
      ParsedIsMeant(tok, m, accountId, fields, dates);
    }
  }
}
