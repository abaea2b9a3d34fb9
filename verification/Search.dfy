/** Search: the query language, the FTS5 expression it becomes, and the answer read off the index. */
module Search {
  import opened Ascii
  import opened FtsIndex

  datatype Option<T> = None | Some(value: T)

  /** A prefix match of an operand, with its quotes gone: over given columns in parentheses, or over all of them. */
  datatype Term = Scoped(cols: set<Column>, operand: string) | Bare(operand: string)

  datatype Query = Query(terms: seq<Term>, hasAttachment: bool, unread: bool, before: Option<int>, after: Option<int>)

  const EMPTY := Query([], false, false, None, None)

  /** Reads a date operand; a text that is no date is ignored. */
  type DateParser = string -> Option<int>

  // ----- parsing -----

  function Unquoted(s: string): string {
    if s == "" then "" else (if s[0] == '"' then "" else [s[0]]) + Unquoted(s[1..])
  }

  const ALL_COLUMNS: set<Column> := {FromAddr, FromName, Subject, Snippet, BodyText}

  /** What one whitespace-separated field adds to the query. */
  function ParseField(q: Query, field: string, dates: DateParser): Query {
    var lower := Lower(field);
    if HasPrefix(lower, "from:") then
      if |field| > 5 then q.(terms := q.terms + [Scoped({FromAddr, FromName}, Unquoted(field[5..]))]) else q
    else if HasPrefix(lower, "subject:") then
      if |field| > 8 then q.(terms := q.terms + [Scoped({Subject}, Unquoted(field[8..]))]) else q
    else if lower == "has:attachment" then q.(hasAttachment := true)
    else if lower == "is:unread" then q.(unread := true)
    else if HasPrefix(lower, "before:") then
      var d := dates(field[7..]);
      if d.Some? then q.(before := d) else q
    else if HasPrefix(lower, "after:") then
      var d := dates(field[6..]);
      if d.Some? then q.(after := d) else q
    else if Unquoted(field) != "" then q.(terms := q.terms + [Bare(Unquoted(field))])
    else q
  }

  function ParseAll(q: Query, fields: seq<string>, dates: DateParser): Query
    decreases |fields|
  {
    if fields == [] then q else ParseAll(ParseField(q, fields[0], dates), fields[1..], dates)
  }

  method ParseQuery(fields: seq<string>, dates: DateParser) returns (q: Query)
    ensures q == ParseAll(EMPTY, fields, dates)
  {
    q := EMPTY;
    var i := 0;
    ghost var rest := fields;
    while i < |fields|
      invariant 0 <= i <= |fields| && rest == fields[i..]
      invariant ParseAll(q, rest, dates) == ParseAll(EMPTY, fields, dates)
    {
      q := ParseField(q, fields[i], dates);
      i, rest := i + 1, rest[1..];
    }
  }

  // ----- the FTS5 expression -----

  datatype Symbol = Open | Close | Cols(cols: set<Column>) | Colon | Str(text: string)

  /** The symbols of one term: `({from_addr from_name} : "alice"*)` or `"report"*`. */
  function Printed(t: Term): seq<Symbol> {
    match t
    case Scoped(cols, operand) => [Open, Cols(cols), Colon, Str(operand), Close]
    case Bare(operand) => [Str(operand)]
  }

  function Expression(terms: seq<Term>): seq<Symbol> {
    if terms == [] then [] else Printed(terms[0]) + Expression(terms[1..])
  }

  /** A quoted string ends where a NUL cuts the expression off. */
  predicate IsPhrase(x: Symbol) {
    x.Str? && '\0' !in x.text
  }

  /** The grammar of FTS5 without its operators, which a quoted operand cannot spell. */
  predicate IsScopedPhrase(xs: seq<Symbol>) {
    (|xs| == 1 && IsPhrase(xs[0])) || (|xs| == 3 && xs[0].Cols? && xs[1].Colon? && IsPhrase(xs[2]))
  }

  /** Phrases side by side are joined by an implicit AND. */
  predicate IsList(xs: seq<Symbol>)
    decreases |xs|
  {
    IsScopedPhrase(xs) || exists k :: 0 < k < |xs| && IsList(xs[..k]) && IsScopedPhrase(xs[k..])
  }

  /** A parenthesis encloses a whole expression; nothing is implied beside it. */
  predicate IsExpression(xs: seq<Symbol>)
    decreases |xs|
  {
    || IsList(xs)
    || (|xs| >= 2 && xs[0].Open? && xs[|xs| - 1].Close? && IsExpression(xs[1..|xs| - 1]))
    || (|xs| >= 4 && xs[0].Cols? && xs[1].Colon? && xs[2].Open? && xs[|xs| - 1].Close?
        && IsExpression(xs[3..|xs| - 1]))
  }

  /** At most one term, or none in parentheses, and no NUL in an operand. */
  predicate Answerable(terms: seq<Term>) {
    && (|terms| <= 1 || forall i :: 0 <= i < |terms| ==> terms[i].Bare?)
    && forall i :: 0 <= i < |terms| ==> '\0' !in terms[i].operand
  }

  /** A symbol that may stand in a list. */
  ghost predicate Plain(x: Symbol) {
    !x.Open? && !x.Close? && (x.Str? ==> IsPhrase(x))
  }

  lemma {:induction false} ListIsPlain(xs: seq<Symbol>, i: nat)
    requires IsList(xs) && i < |xs|
    ensures Plain(xs[i])
    decreases |xs|
  {
    if !IsScopedPhrase(xs) {
      var k :| 0 < k < |xs| && IsList(xs[..k]) && IsScopedPhrase(xs[k..]);
      if i < k {
        ListIsPlain(xs[..k], i);
        assert xs[..k][i] == xs[i];
      } else {
        var part := xs[k..];
        assert part[i - k] == xs[i];
        ScopedIsPlain(part, i - k);
      }
    } else {
      ScopedIsPlain(xs, i);
    }
  }

  lemma ScopedIsPlain(xs: seq<Symbol>, i: nat)
    requires IsScopedPhrase(xs) && i < |xs|
    ensures Plain(xs[i])
  {
  }

  lemma {:induction false} ExpressionReadsPhrases(xs: seq<Symbol>, i: nat)
    requires IsExpression(xs) && i < |xs| && xs[i].Str?
    ensures IsPhrase(xs[i])
    decreases |xs|
  {
    if IsList(xs) {
      ListIsPlain(xs, i);
    } else if xs[0].Open? {
      assert xs[1..|xs| - 1][i - 1] == xs[i];
      ExpressionReadsPhrases(xs[1..|xs| - 1], i - 1);
    } else {
      assert xs[3..|xs| - 1][i - 3] == xs[i];
      ExpressionReadsPhrases(xs[3..|xs| - 1], i - 3);
    }
  }

  lemma {:induction false} BareIsList(terms: seq<Term>)
    requires terms != [] && forall i :: 0 <= i < |terms| ==> terms[i].Bare? && '\0' !in terms[i].operand
    ensures IsList(Expression(terms))
    decreases |terms|
  {
    var init, last := terms[..|terms| - 1], terms[|terms| - 1];
    ExpressionSnoc(init, last);
    assert terms == init + [last];
    if init != [] {
      BareIsList(init);
      var xs := Expression(terms);
      var k := |Expression(init)|;
      assert xs[..k] == Expression(init) && xs[k..] == Printed(last);
      assert k > 0 by { assert |Printed(init[0])| == 1; }
    } else {
      assert Expression(init) + Printed(last) == Printed(last);
    }
  }

  lemma {:induction false} ExpressionSnoc(terms: seq<Term>, t: Term)
    ensures Expression(terms + [t]) == Expression(terms) + Printed(t)
  {
    if terms == [] {
      assert terms + [t] == [t] && [t][1..] == [];
      assert Printed(t) + [] == Printed(t);
    } else {
      assert (terms + [t])[1..] == terms[1..] + [t];
      ExpressionSnoc(terms[1..], t);
      assert Printed(terms[0]) + (Expression(terms[1..]) + Printed(t)) == Expression(terms) + Printed(t);
    }
  }

  /** A term's symbols stand together in the expression. */
  lemma {:induction false} TermPlace(terms: seq<Term>, i: nat) returns (before: seq<Symbol>, after: seq<Symbol>)
    requires i < |terms|
    ensures Expression(terms) == before + (Printed(terms[i]) + after)
    ensures i < |terms| - 1 ==> after != []
  {
    if i == 0 {
      before, after := [], Expression(terms[1..]);
      if |terms| > 1 { assert |Printed(terms[1])| > 0; }
    } else {
      before, after := TermPlace(terms[1..], i - 1);
      assert Printed(terms[0]) + (before + (Printed(terms[i]) + after))
          == (Printed(terms[0]) + before) + (Printed(terms[i]) + after);
      before := Printed(terms[0]) + before;
    }
  }

  lemma SymbolAt(before: seq<Symbol>, t: Term, after: seq<Symbol>, k: nat)
    requires k < |Printed(t)|
    ensures var xs := before + (Printed(t) + after); |before| + k < |xs| && xs[|before| + k] == Printed(t)[k]
  {
  }

  lemma OpenIsNoList(terms: seq<Term>, i: nat)
    requires i < |terms| && terms[i].Scoped?
    ensures !IsList(Expression(terms))
  {
    var before, after := TermPlace(terms, i);
    SymbolAt(before, terms[i], after, 0);
    if IsList(Expression(terms)) { ListIsPlain(Expression(terms), |before|); }
  }

  lemma FirstTerm(terms: seq<Term>)
    requires |terms| > 1
    ensures var xs := Expression(terms);
      && |xs| > 1 && (terms[0].Bare? ==> xs[0].Str?)
      && (terms[0].Scoped? ==> |xs| > 5 && xs[0].Open? && xs[1].Cols? && xs[2].Colon? && xs[3].Str? && xs[4].Close?)
  {
    assert |Printed(terms[1])| > 0;
  }

  lemma ScopedBesideIsRefused(terms: seq<Term>, i: nat)
    requires i < |terms| && terms[i].Scoped? && |terms| > 1
    ensures !IsExpression(Expression(terms))
  {
    OpenIsNoList(terms, i);
    FirstTerm(terms);
    if terms[0].Scoped? { InnerIsRefused(Expression(terms)); }
  }

  lemma InnerIsRefused(xs: seq<Symbol>)
    requires |xs| > 5 && xs[1].Cols? && xs[2].Colon? && xs[3].Str? && xs[4].Close?
    ensures !IsExpression(xs[1..|xs| - 1])
  {
    var inner := xs[1..|xs| - 1];
    assert inner[0] == xs[1] && inner[2] == xs[3] && inner[3] == xs[4];
    if IsList(inner) { ListIsPlain(inner, 3); }
  }

  /** FTS5 takes the expression of a query exactly if the query is answerable. */
  lemma AcceptedIff(terms: seq<Term>)
    requires terms != []
    ensures IsExpression(Expression(terms)) <==> Answerable(terms)
  {
    var xs := Expression(terms);
    if Answerable(terms) {
      if forall i :: 0 <= i < |terms| ==> terms[i].Bare? {
        BareIsList(terms);
      } else {
        var t := terms[0];
        assert xs == Printed(t) + [];
        var inner := xs[1..|xs| - 1];
        assert inner == [Cols(t.cols), Colon, Str(t.operand)];
        assert IsList(inner);
      }
    } else if i :| 0 <= i < |terms| && '\0' in terms[i].operand {
      var before, after := TermPlace(terms, i);
      var k := if terms[i].Scoped? then 3 else 0;
      SymbolAt(before, terms[i], after, k);
      if IsExpression(xs) { ExpressionReadsPhrases(xs, |before| + k); }
    } else {
      var i :| 0 <= i < |terms| && terms[i].Scoped?;
      ScopedBesideIsRefused(terms, i);
    }
  }

  // ----- meaning -----

  function TermColumns(t: Term): set<Column> {
    if t.Scoped? then t.cols else ALL_COLUMNS
  }

  /** The phrase stands in the text at `pos`; its last token need only be begun. */
  ghost predicate PhraseAt(tokens: seq<string>, pos: nat, phrase: seq<string>)
    decreases |phrase|
  {
    if phrase == [] then true
    else
      && pos < |tokens|
      && (if |phrase| == 1 then HasPrefix(tokens[pos], phrase[0]) else tokens[pos] == phrase[0])
      && PhraseAt(tokens, pos + 1, phrase[1..])
  }

  ghost predicate TermMatches(tok: Tokenizer, m: Message, t: Term) {
    exists col, pos: nat :: col in TermColumns(t) && PhraseAt(tok(Text(m, col)), pos, tok(t.operand))
  }

  /** An operand without tokens says nothing. */
  predicate Silent(tok: Tokenizer, t: Term) {
    tok(t.operand) == []
  }

  predicate Vocal(tok: Tokenizer, terms: seq<Term>) {
    exists i :: 0 <= i < |terms| && !Silent(tok, terms[i])
  }

  /** Silent terms are dropped from a conjunction, unless nothing else is left, which matches no row. */
  ghost predicate MatchesTerms(tok: Tokenizer, m: Message, terms: seq<Term>) {
    forall i :: 0 <= i < |terms| ==> Silent(tok, terms[i]) || TermMatches(tok, m, terms[i])
  }

  /** 1 January of year 1, in seconds since 1970: the date that stands for none. */
  const ZERO_TIME: int := -62135596800

  predicate Bounds(date: Option<int>) {
    date.Some? && date.value != ZERO_TIME
  }

  predicate Passes(m: Message, accountId: nat, q: Query) {
    && m.accountId == accountId && !m.isDeleted
    && (q.hasAttachment ==> m.hasAttachments)
    && (q.unread ==> !m.isRead)
    && (Bounds(q.before) ==> m.date < q.before.value)
    && (Bounds(q.after) ==> m.date > q.after.value)
  }

  /** What a linear scan of the table would test of each row. */
  ghost predicate Matches(tok: Tokenizer, m: Message, accountId: nat, q: Query) {
    Passes(m, accountId, q) && MatchesTerms(tok, m, q.terms) && (q.terms == [] || Vocal(tok, q.terms))
  }

  predicate HasFilters(q: Query) {
    q.hasAttachment || q.unread || Bounds(q.before) || Bounds(q.after)
  }

  // ----- the index -----

  /** The index places the phrase in a column of a row, token by token. */
  predicate PhraseFrom(index: Index, id: nat, col: Column, pos: nat, phrase: seq<string>)
    decreases |phrase|
  {
    if phrase == [] then true
    else
      && (if |phrase| == 1
          then exists p :: p in index && p.id == id && p.col == col && p.pos == pos && HasPrefix(p.token, phrase[0])
          else Posting(id, col, phrase[0], pos) in index)
      && PhraseFrom(index, id, col, pos + 1, phrase[1..])
  }

  /** The rowids the index lists under a phrase. */
  function Hits(index: Index, cols: set<Column>, phrase: seq<string>): set<nat> {
    set p | p in index && p.col in cols && PhraseFrom(index, p.id, p.col, p.pos, phrase) :: p.id
  }

  lemma EveryColumnIsIndexed(col: Column)
    ensures col in Columns(NEWEST)
  {
    var cols := Columns(NEWEST);
    assert cols[0] == FromAddr && cols[1] == FromName && cols[2] == Subject;
    assert cols[3] == Snippet && cols[4] == BodyText;
  }

  lemma PostingIs(tok: Tokenizer, rows: Rows, index: Index, p: Posting)
    requires Agrees(tok, NEWEST, rows, index)
    ensures p in index <==>
      (p.id in rows && var tokens := tok(Text(rows[p.id], p.col)); p.pos < |tokens| && tokens[p.pos] == p.token)
  {
    EveryColumnIsIndexed(p.col);
    if p.id in rows {
      PostingsAreTokens(tok, Columns(NEWEST), p.id, rows[p.id], p);
      assert index[p] == Postings(tok, Columns(NEWEST), p.id, rows[p.id])[p];
    } else {
      assert index[p] == 0;
    }
  }

  lemma {:induction false} PhraseFromIs(tok: Tokenizer, rows: Rows, index: Index, id: nat, col: Column, pos: nat,
                                        phrase: seq<string>)
    requires Agrees(tok, NEWEST, rows, index) && id in rows
    ensures PhraseFrom(index, id, col, pos, phrase) <==> PhraseAt(tok(Text(rows[id], col)), pos, phrase)
    decreases |phrase|
  {
    if phrase != [] {
      PhraseFromIs(tok, rows, index, id, col, pos + 1, phrase[1..]);
      PostingIs(tok, rows, index, Posting(id, col, phrase[0], pos));
      if |phrase| == 1 { LastTokenIs(tok, rows, index, id, col, pos, phrase[0]); }
    }
  }

  lemma LastTokenIs(tok: Tokenizer, rows: Rows, index: Index, id: nat, col: Column, pos: nat, prefix: string)
    requires Agrees(tok, NEWEST, rows, index) && id in rows
    ensures (exists p :: p in index && p.id == id && p.col == col && p.pos == pos && HasPrefix(p.token, prefix))
      <==> (var tokens := tok(Text(rows[id], col)); pos < |tokens| && HasPrefix(tokens[pos], prefix))
  {
    var tokens := tok(Text(rows[id], col));
    if p :| p in index && p.id == id && p.col == col && p.pos == pos && HasPrefix(p.token, prefix) {
      PostingIs(tok, rows, index, p);
    }
    if pos < |tokens| { PostingIs(tok, rows, index, Posting(id, col, tokens[pos], pos)); }
  }

  lemma HitMatches(tok: Tokenizer, rows: Rows, index: Index, t: Term, id: nat)
    requires Agrees(tok, NEWEST, rows, index) && id in Hits(index, TermColumns(t), tok(t.operand))
    ensures id in rows && TermMatches(tok, rows[id], t)
  {
    var p :|
      p in index && p.id == id && p.col in TermColumns(t) && PhraseFrom(index, p.id, p.col, p.pos, tok(t.operand));
    PostingIs(tok, rows, index, p);
    PhraseFromIs(tok, rows, index, id, p.col, p.pos, tok(t.operand));
  }

  lemma MatchHits(tok: Tokenizer, rows: Rows, index: Index, t: Term, id: nat)
    requires Agrees(tok, NEWEST, rows, index) && id in rows && !Silent(tok, t) && TermMatches(tok, rows[id], t)
    ensures id in Hits(index, TermColumns(t), tok(t.operand))
  {
    var col, pos: nat :| col in TermColumns(t) && PhraseAt(tok(Text(rows[id], col)), pos, tok(t.operand));
    PhraseFromIs(tok, rows, index, id, col, pos, tok(t.operand));
    var p := Posting(id, col, tok(Text(rows[id], col))[pos], pos);
    PostingIs(tok, rows, index, p);
  }

  /** The rows the index lists under a term are exactly those whose text has its phrase in those columns. */
  lemma HitsAreMatches(tok: Tokenizer, rows: Rows, index: Index, t: Term)
    requires Agrees(tok, NEWEST, rows, index) && !Silent(tok, t)
    ensures forall id ::
      id in Hits(index, TermColumns(t), tok(t.operand)) <==> id in rows && TermMatches(tok, rows[id], t)
  {
    forall id | id in Hits(index, TermColumns(t), tok(t.operand))
      ensures id in rows && TermMatches(tok, rows[id], t)
    {
      HitMatches(tok, rows, index, t, id);
    }
    forall id | id in rows && TermMatches(tok, rows[id], t)
      ensures id in Hits(index, TermColumns(t), tok(t.operand))
    {
      MatchHits(tok, rows, index, t, id);
    }
  }

  lemma OneMoreTerm(tok: Tokenizer, m: Message, terms: seq<Term>, i: nat)
    requires i < |terms|
    ensures MatchesTerms(tok, m, terms[..i + 1])
      <==> MatchesTerms(tok, m, terms[..i]) && (Silent(tok, terms[i]) || TermMatches(tok, m, terms[i]))
  {
    assert terms[..i + 1] == terms[..i] + [terms[i]];
    assert terms[..i + 1][i] == terms[i];
    assert forall j :: 0 <= j < i ==> terms[..i + 1][j] == terms[..i][j];
  }

  datatype Result<T> = Ok(value: T) | SyntaxError

  /** The rows that match an expression, read off the index: the phrases' rows intersected. */
  method MatchRows(db: Database, terms: seq<Term>) returns (hits: set<nat>)
    requires db.Valid() && db.version == NEWEST
    ensures forall id :: id in hits <==>
      id in db.rows && MatchesTerms(db.tok, db.rows[id], terms) && Vocal(db.tok, terms)
  {
    if !Vocal(db.tok, terms) { return {}; }
    hits := db.rows.Keys;
    var i := 0;
    ghost var tok, rows := db.tok, db.rows;
    while i < |terms|
      invariant 0 <= i <= |terms|
      invariant forall id :: id in hits <==> id in rows && MatchesTerms(tok, rows[id], terms[..i])
    {
      forall id | id in rows
        ensures MatchesTerms(tok, rows[id], terms[..i + 1]) <==>
          (MatchesTerms(tok, rows[id], terms[..i]) && (Silent(tok, terms[i]) || TermMatches(tok, rows[id], terms[i])))
      {
        OneMoreTerm(tok, rows[id], terms, i);
      }
      if db.tok(terms[i].operand) != [] {
        HitsAreMatches(tok, rows, db.index, terms[i]);
        hits := hits * Hits(db.index, TermColumns(terms[i]), db.tok(terms[i].operand));
      }
      i := i + 1;
    }
    assert terms[..i] == terms;
  }

  /**
    A search answers exactly if at most one term is written or none is scoped; it then finds exactly the rows that a
    linear scan with the same terms and filters would, and without terms and filters none.  Ranking and the limit
    are left out.
   */
  method Search(db: Database, accountId: nat, q: Query) returns (found: Result<set<nat>>)
    requires db.Valid() && db.version == NEWEST
    ensures found.Ok? <==> Answerable(q.terms)
    ensures found.Ok? && q.terms == [] && !HasFilters(q) ==> found.value == {}
    ensures found.Ok? && (q.terms != [] || HasFilters(q))
      ==> forall id :: id in found.value <==> id in db.rows && Matches(db.tok, db.rows[id], accountId, q)
  {
    if q.terms == [] && !HasFilters(q) { return Ok({}); }
    var hits := db.rows.Keys;
    if q.terms != [] {
      AcceptedIff(q.terms);
      if !IsExpression(Expression(q.terms)) { return SyntaxError; }
      hits := MatchRows(db, q.terms);
    }
    found := Ok(set id | id in hits && Passes(db.rows[id], accountId, q));
  }

  /** The field is an operator, whatever its value. */
  predicate IsOperator(field: string) {
    var lower := Lower(field);
    || HasPrefix(lower, "from:") || HasPrefix(lower, "subject:") || lower == "has:attachment" || lower == "is:unread"
    || HasPrefix(lower, "before:") || HasPrefix(lower, "after:")
  }

  lemma FromParses(q: Query, name: string, dates: DateParser)
    requires name != ""
    ensures ParseField(q, "from:" + name, dates)
         == q.(terms := q.terms + [Scoped({FromAddr, FromName}, Unquoted(name))])
  {
    var field := "from:" + name;
    assert field[5..] == name;
    assert Lower(field)[..5] == "from:";
    assert HasPrefix(Lower(field), "from:");
  }

  /**
    A scoped term beside any other is refused: a search for mail from someone about something answers an error,
    whatever the index holds.
   */
  lemma ScopedSearchFails(name: string, word: string, dates: DateParser)
    requires name != "" && !IsOperator(word) && Unquoted(word) != ""
    ensures var q := ParseAll(EMPTY, ["from:" + name, word], dates);
      && q.terms == [Scoped({FromAddr, FromName}, Unquoted(name)), Bare(Unquoted(word))]
      && !IsExpression(Expression(q.terms))
  {
    var fields := ["from:" + name, word];
    FromParses(EMPTY, name, dates);
    var q := ParseField(EMPTY, fields[0], dates);
    assert q.terms == [Scoped({FromAddr, FromName}, Unquoted(name))];
    assert fields[1..] == [word] && [word][1..] == [];
    var r := ParseField(q, word, dates);
    assert ParseAll(q, [word], dates) == ParseAll(r, [], dates) == r;
    AcceptedIff(r.terms);
    assert r.terms[0].Scoped?;
  }

  // ----- the query language -----

  /** What the fields say: which operators occur, the last readable dates, and the terms in order. */
  lemma {:induction false} ParsedMeaning(q: Query, fields: seq<string>, dates: DateParser)
    ensures var r := ParseAll(q, fields, dates);
      && (r.hasAttachment <==> q.hasAttachment || exists i :: 0 <= i < |fields| && Lower(fields[i]) == "has:attachment")
      && (r.unread <==> q.unread || exists i :: 0 <= i < |fields| && Lower(fields[i]) == "is:unread")
    decreases |fields|
  {
    if fields != [] {
      ParsedMeaning(ParseField(q, fields[0], dates), fields[1..], dates);
      FieldSets(q, fields[0], dates);
      assert forall i :: 0 < i < |fields| ==> fields[i] == fields[1..][i - 1];
    }
  }

  lemma FieldSets(q: Query, field: string, dates: DateParser)
    ensures var r := ParseField(q, field, dates);
      && (r.hasAttachment <==> q.hasAttachment || Lower(field) == "has:attachment")
      && (r.unread <==> q.unread || Lower(field) == "is:unread")
  {
    var lower := Lower(field);
    if lower == "has:attachment" { assert lower[0] == 'h'; }
    if lower == "is:unread" { assert lower[0] == 'i'; }
    if HasPrefix(lower, "from:") { assert lower[0] == "from:"[0]; }
    if HasPrefix(lower, "subject:") { assert lower[0] == "subject:"[0]; }
  }

  ghost predicate Independent(q: Query, r: Query) {
    !(q.before.Some? && r.before.Some?) && !(q.after.Some? && r.after.Some?)
  }

  function Merge(q: Query, r: Query): Query {
    Query(q.terms + r.terms, q.hasAttachment || r.hasAttachment, q.unread || r.unread,
          if r.before.Some? then r.before else q.before, if r.after.Some? then r.after else q.after)
  }

  lemma {:induction false} ParseFrom(q: Query, fields: seq<string>, dates: DateParser)
    ensures ParseAll(q, fields, dates) == Merge(q, ParseAll(EMPTY, fields, dates))
    decreases |fields|
  {
    if fields == [] {
      assert q.terms + [] == q.terms;
    } else {
      var f := ParseField(EMPTY, fields[0], dates);
      ParseFrom(ParseField(q, fields[0], dates), fields[1..], dates);
      ParseFrom(f, fields[1..], dates);
      var rest := ParseAll(EMPTY, fields[1..], dates);
      FieldMerges(q, fields[0], dates);
      assert q.terms + f.terms + rest.terms == q.terms + (f.terms + rest.terms);
    }
  }

  lemma FieldMerges(q: Query, field: string, dates: DateParser)
    ensures ParseField(q, field, dates) == Merge(q, ParseField(EMPTY, field, dates))
  {
    assert q.terms + [] == q.terms;
  }

  lemma {:induction false} ParseConcat(q: Query, xs: seq<string>, ys: seq<string>, dates: DateParser)
    ensures ParseAll(q, xs + ys, dates) == ParseAll(ParseAll(q, xs, dates), ys, dates)
    decreases |xs|
  {
    if xs == [] {
      assert xs + ys == ys;
    } else {
      assert (xs + ys)[0] == xs[0] && (xs + ys)[1..] == xs[1..] + ys;
      ParseConcat(ParseField(q, xs[0], dates), xs[1..], ys, dates);
    }
  }

  lemma ConcatHolds(tok: Tokenizer, m: Message, xs: seq<Term>, ys: seq<Term>)
    ensures MatchesTerms(tok, m, xs + ys) <==> MatchesTerms(tok, m, xs) && MatchesTerms(tok, m, ys)
    ensures Vocal(tok, xs + ys) <==> Vocal(tok, xs) || Vocal(tok, ys)
  {
    var all := xs + ys;
    assert forall i :: 0 <= i < |xs| ==> all[i] == xs[i];
    assert forall i :: 0 <= i < |ys| ==> all[|xs| + i] == ys[i];
    assert forall i :: 0 <= i < |all| ==> all[i] == if i < |xs| then xs[i] else ys[i - |xs|];
  }

  /**
    Where the search for all the fields together is answered, it is the conjunction of the searches for its parts,
    which are answered too.  A part must not be silent throughout, and a date bound set in both parts is the later
    part's.
   */
  lemma FieldsConjoin(tok: Tokenizer, m: Message, accountId: nat, xs: seq<string>, ys: seq<string>, dates: DateParser)
    requires Answerable(ParseAll(EMPTY, xs + ys, dates).terms)
    requires var q, r := ParseAll(EMPTY, xs, dates), ParseAll(EMPTY, ys, dates);
      && Independent(q, r) && (q.terms == [] || Vocal(tok, q.terms)) && (r.terms == [] || Vocal(tok, r.terms))
    ensures var q, r := ParseAll(EMPTY, xs, dates), ParseAll(EMPTY, ys, dates);
      && Answerable(q.terms) && Answerable(r.terms)
      && (Matches(tok, m, accountId, ParseAll(EMPTY, xs + ys, dates))
          <==> Matches(tok, m, accountId, q) && Matches(tok, m, accountId, r))
  {
    var q, r := ParseAll(EMPTY, xs, dates), ParseAll(EMPTY, ys, dates);
    ParseConcat(EMPTY, xs, ys, dates);
    ParseFrom(q, ys, dates);
    AnswerableParts(q.terms, r.terms);
    MergedMatches(tok, m, accountId, q, r);
  }

  lemma AnswerableParts(xs: seq<Term>, ys: seq<Term>)
    requires Answerable(xs + ys)
    ensures Answerable(xs) && Answerable(ys)
  {
    var all := xs + ys;
    assert forall i :: 0 <= i < |xs| ==> all[i] == xs[i];
    assert forall i :: 0 <= i < |ys| ==> all[|xs| + i] == ys[i];
  }

  lemma MergedMatches(tok: Tokenizer, m: Message, accountId: nat, q: Query, r: Query)
    requires Independent(q, r) && (q.terms == [] || Vocal(tok, q.terms)) && (r.terms == [] || Vocal(tok, r.terms))
    ensures Matches(tok, m, accountId, Merge(q, r)) <==> Matches(tok, m, accountId, q) && Matches(tok, m, accountId, r)
  {
    ConcatHolds(tok, m, q.terms, r.terms);
  }
}
