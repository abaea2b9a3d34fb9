/** Folding a sanitized event stream into paragraphs of styled runs. */
module RichSpans {
  import Spaces

  datatype Option<T> = None | Some(value: T)

  datatype Event =
    | Text(text: string)
    | BlockOpen(tag: string, depth: int)
    | BlockClose(tag: string)
    | StyleOpen(style: string)
    | StyleClose(style: string)
    | LinkOpen(href: string)
    | LinkClose
    | Break
    | Image(alt: string)

  datatype Style = Style(bold: bool, italic: bool, underline: bool, code: bool, link: string)

  datatype Run = Run(text: string, style: Style)

  datatype Para = Para(tag: string, depth: int, runs: seq<Run>)

  const MAX_RICH_PARAS: nat := 5000

  /** Nesting counters; a close without an open leaves its counter at zero. */
  datatype Span = Span(bold: nat, italic: nat, under: nat, code: nat, link: string)

  const NO_SPAN := Span(0, 0, 0, 0, "")

  function Bump(n: nat, on: bool): nat {
    if on then n + 1 else if n == 0 then 0 else n - 1
  }

  function Apply(s: Span, style: string, on: bool): Span {
    if style == "b" then s.(bold := Bump(s.bold, on))
    else if style == "i" then s.(italic := Bump(s.italic, on))
    else if style == "u" then s.(under := Bump(s.under, on))
    else if style == "code" then s.(code := Bump(s.code, on))
    else s
  }

  function TextStyle(s: Span): Style {
    Style(s.bold > 0, s.italic > 0, s.under > 0, s.code > 0, s.link)
  }

  function BreakStyle(s: Span): Style {
    Style(s.bold > 0, s.italic > 0, false, s.code > 0, "")
  }

  const BULLET := Run("\U{2022} ", Style(true, false, false, false, ""))
  const ALT_STYLE := Style(false, true, false, false, "")

  // ----- white space -----

  predicate IsGap(c: char) {
    c == ' ' || c == '\t' || c == '\n'
  }

  function UnixLines(s: string): string {
    if |s| >= 2 && s[0] == '\r' && s[1] == '\n' then "\n" + UnixLines(s[2..])
    else if s == "" then "" else [s[0]] + UnixLines(s[1..])
  }

  /** Every run of gaps becomes one space; `space` says that a gap is already open. */
  function Collapsed(s: string, space: bool): string {
    if s == "" then (if space then " " else "")
    else if IsGap(s[0]) then Collapsed(s[1..], true)
    else (if space then " " else "") + [s[0]] + Collapsed(s[1..], false)
  }

  method CollapseSpace(s: string) returns (r: string)
    ensures r == Collapsed(UnixLines(s), false)
  {
    var t := UnixLines(s);
    r := "";
    var space := false;
    var i := 0;
    ghost var rest := t;
    while i < |t|
      invariant 0 <= i <= |t| && rest == t[i..]
      invariant r + Collapsed(rest, space) == Collapsed(t, false)
    {
      if IsGap(t[i]) {
        space := true;
      } else {
        if space { r := r + " "; }
        space := false;
        r := r + [t[i]];
      }
      i, rest := i + 1, rest[1..];
    }
    if space { r := r + " "; }
  }

  function Words(s: string): string {
    if s == "" then "" else (if IsGap(s[0]) then "" else [s[0]]) + Words(s[1..])
  }

  /** Collapsing keeps every other character in order and leaves single spaces only. */
  lemma {:induction false} CollapsedMeaning(s: string, space: bool)
    ensures var r := Collapsed(s, space);
      && Words(r) == Words(s)
      && (forall i :: 0 <= i < |r| && IsGap(r[i]) ==> r[i] == ' ' && (i + 1 < |r| ==> !IsGap(r[i + 1])))
      && (space ==> |r| > 0 && r[0] == ' ')
      && (!space && s != "" && !IsGap(s[0]) ==> |r| > 0 && r[0] == s[0])
    decreases |s|
  {
    var r := Collapsed(s, space);
    if s == "" {
      if space { assert r[1..] == ""; }
    } else if IsGap(s[0]) {
      CollapsedMeaning(s[1..], true);
    } else {
      var rest := Collapsed(s[1..], false);
      CollapsedMeaning(s[1..], false);
      if space {
        assert r == " " + ([s[0]] + rest);
        assert r[1..] == [s[0]] + rest && r[1..][1..] == rest;
      } else {
        assert r == [s[0]] + rest && r[1..] == rest;
      }
    }
  }

  function TrimLeft(s: string): string {
    if s != "" && s[0] == ' ' then TrimLeft(s[1..]) else s
  }

  function AltText(alt: string): string {
    var t := Spaces.TrimSpace(alt);
    "[image: " + (if t == "" then "image" else t) + "]"
  }

  // ----- the unmerged specification -----

  /** Closed non-empty paragraphs, the open one, the style and whether inside a pre. */
  datatype Fold = Fold(paras: seq<Para>, cur: Option<Para>, span: Span, inPre: bool)

  const START := Fold([], None, NO_SPAN, false)

  function Flushed(f: Fold): Fold {
    f.(paras := if f.cur.Some? && f.cur.value.runs != [] then f.paras + [f.cur.value] else f.paras, cur := None)
  }

  /** The run goes at the end of the open paragraph, or opens an untagged one. */
  function Emitted(f: Fold, r: Run): Fold {
    var p := if f.cur.Some? then f.cur.value else Para("", 0, []);
    f.(cur := Some(p.(runs := p.runs + [r])))
  }

  /** The text that an event contributes: nothing for white space between blocks. */
  function Shown(f: Fold, text: string): string {
    if f.inPre then text
    else
      var t := Collapsed(UnixLines(text), false);
      if f.cur.None? then TrimLeft(t) else t
  }

  function Step(f: Fold, ev: Event): Fold {
    match ev
    case Text(text) =>
      if !f.inPre && Shown(f, text) == "" then f else Emitted(f, Run(Shown(f, text), TextStyle(f.span)))
    case BlockOpen(tag, depth) =>
      var g := Flushed(f);
      if tag == "br" then g
      else
        var h := g.(cur := Some(Para(tag, depth, [])), inPre := g.inPre || tag == "pre");
        if tag == "li" then Emitted(h, BULLET) else h
    case BlockClose(tag) =>
      var g := Flushed(f);
      g.(inPre := g.inPre && tag != "pre")
    case StyleOpen(style) => f.(span := Apply(f.span, style, true))
    case StyleClose(style) => f.(span := Apply(f.span, style, false))
    case LinkOpen(href) => f.(span := f.span.(link := href))
    case LinkClose => f.(span := f.span.(link := ""))
    case Break => Emitted(f, Run("\n", BreakStyle(f.span)))
    case Image(alt) => Emitted(f, Run(AltText(alt), ALT_STYLE))
  }

  function Folded(f: Fold, events: seq<Event>): Fold
    decreases |events|
  {
    if events == [] then f else Folded(Step(f, events[0]), events[1..])
  }

  /** One run per event, never merged and never cut. */
  function Unmerged(events: seq<Event>): seq<Para> {
    Flushed(Folded(START, events)).paras
  }

  // ----- the characters a reader sees -----

  datatype Glyph = Glyph(c: char, style: Style)

  function Styled(r: Run): seq<Glyph> {
    seq(|r.text|, i requires 0 <= i < |r.text| => Glyph(r.text[i], r.style))
  }

  function Glyphs(runs: seq<Run>): seq<Glyph>
    decreases |runs|
  {
    if runs == [] then [] else Glyphs(runs[..|runs| - 1]) + Styled(runs[|runs| - 1])
  }

  ghost predicate AdjacentDiffer(runs: seq<Run>) {
    forall i :: 0 <= i < |runs| - 1 ==> runs[i].style != runs[i + 1].style
  }

  /** Same block, same characters in the same styles; empty exactly if the other is. */
  ghost predicate SamePara(p: Para, q: Para) {
    && p.tag == q.tag && p.depth == q.depth
    && Glyphs(p.runs) == Glyphs(q.runs)
    && (p.runs == [] <==> q.runs == [])
    && AdjacentDiffer(p.runs)
  }

  /** Appends a run, merging it into the previous one of the same style. */
  method Append(p: Para, r: Run) returns (p': Para)
    requires AdjacentDiffer(p.runs)
    ensures p'.tag == p.tag && p'.depth == p.depth && p'.runs != [] && AdjacentDiffer(p'.runs)
    ensures Glyphs(p'.runs) == Glyphs(p.runs) + Styled(r)
  {
    var n := |p.runs|;
    if n > 0 && p.runs[n - 1].style == r.style {
      var last := p.runs[n - 1];
      p' := p.(runs := p.runs[n - 1 := last.(text := last.text + r.text)]);
      assert p'.runs[..n - 1] == p.runs[..n - 1];
      assert Styled(p'.runs[n - 1]) == Styled(last) + Styled(r);
    } else {
      p' := p.(runs := p.runs + [r]);
      assert p'.runs[..n] == p.runs;
    }
  }

  lemma GlyphsSnoc(runs: seq<Run>, r: Run)
    ensures Glyphs(runs + [r]) == Glyphs(runs) + Styled(r)
  {
    assert (runs + [r])[..|runs|] == runs;
  }

  /** The merged, capped paragraphs against the unmerged ones. */
  ghost predicate Agrees(paras: seq<Para>, spec: seq<Para>) {
    && |paras| == (if |spec| < MAX_RICH_PARAS then |spec| else MAX_RICH_PARAS)
    && forall i :: 0 <= i < |paras| ==> SamePara(paras[i], spec[i])
  }

  ghost predicate SameCur(cur: Option<Para>, spec: Option<Para>) {
    (cur.Some? <==> spec.Some?) && (cur.Some? ==> SamePara(cur.value, spec.value))
  }

  method Flush(paras: seq<Para>, cur: Option<Para>, ghost f: Fold) returns (paras': seq<Para>)
    requires Agrees(paras, f.paras) && SameCur(cur, f.cur)
    ensures Agrees(paras', Flushed(f).paras)
  {
    paras' := paras;
    if cur.Some? && cur.value.runs != [] {
      if |paras| < MAX_RICH_PARAS {
        paras' := paras + [cur.value];
      }
    }
  }

  method Emit(cur: Option<Para>, r: Run, ghost f: Fold) returns (cur': Option<Para>)
    requires SameCur(cur, f.cur)
    ensures SameCur(cur', Emitted(f, r).cur)
  {
    var p := if cur.Some? then cur.value else Para("", 0, []);
    ghost var q := if f.cur.Some? then f.cur.value else Para("", 0, []);
    GlyphsSnoc(q.runs, r);
    var p' := Append(p, r);
    cur' := Some(p');
  }

  /** A text event: white space is collapsed outside a pre, and dropped at the start of a paragraph. */
  method EmitText(cur: Option<Para>, st: Span, inPre: bool, text: string, ghost f: Fold) returns (cur': Option<Para>)
    requires SameCur(cur, f.cur) && f.span == st && f.inPre == inPre
    ensures SameCur(cur', Step(f, Text(text)).cur)
  {
    cur' := cur;
    var shown := text;
    if !inPre {
      shown := CollapseSpace(text);
      if cur.None? { shown := TrimLeft(shown); }
      if shown == "" { return; }
    }
    cur' := Emit(cur, Run(shown, TextStyle(st)), f);
  }

  /** The paragraph a block opens: none for a line break, a bullet first for a list item. */
  method OpenBlock(tag: string, depth: int, ghost f: Fold) returns (cur: Option<Para>)
    ensures SameCur(cur, Step(f, BlockOpen(tag, depth)).cur)
  {
    cur := None;
    if tag != "br" {
      cur := Some(Para(tag, depth, []));
      if tag == "li" { cur := Emit(cur, BULLET, Flushed(f).(cur := cur)); }
    }
  }

  /** The loop's variables against the specification. */
  ghost predicate Follows(paras: seq<Para>, cur: Option<Para>, st: Span, inPre: bool, f: Fold) {
    Agrees(paras, f.paras) && SameCur(cur, f.cur) && f.span == st && f.inPre == inPre
  }

  /** One turn of the loop. */
  method Handle(ev: Event, paras: seq<Para>, cur: Option<Para>, st: Span, inPre: bool, ghost f: Fold)
    returns (paras': seq<Para>, cur': Option<Para>, st': Span, inPre': bool)
    requires Follows(paras, cur, st, inPre, f)
    ensures Follows(paras', cur', st', inPre', Step(f, ev))
  {
    paras', cur', st', inPre' := paras, cur, st, inPre;
    match ev {
      case Text(text) => cur' := EmitText(cur, st, inPre, text, f);
      case BlockOpen(tag, depth) =>
        paras' := Flush(paras, cur, f);
        cur' := OpenBlock(tag, depth, f);
        inPre' := inPre || tag == "pre";
      case BlockClose(tag) =>
        paras' := Flush(paras, cur, f);
        cur' := None;
        inPre' := inPre && tag != "pre";
      case StyleOpen(style) => st' := Apply(st, style, true);
      case StyleClose(style) => st' := Apply(st, style, false);
      case LinkOpen(href) => st' := st.(link := href);
      case LinkClose => st' := st.(link := "");
      case Break => cur' := Emit(cur, Run("\n", BreakStyle(st)), f);
      case Image(alt) => cur' := Emit(cur, Run(AltText(alt), ALT_STYLE), f);
    }
  }

  /** The loop over the events: the unmerged fold, merged and cut to its first 5000 non-empty paragraphs. */
  method FoldEvents(events: seq<Event>) returns (paras: seq<Para>)
    ensures Agrees(paras, Unmerged(events))
  {
    paras := [];
    var cur: Option<Para> := None;
    var st, inPre := NO_SPAN, false;
    ghost var f := START;
    ghost var rest := events;
    var i := 0;
    while i < |events|
      invariant 0 <= i <= |events| && rest == events[i..]
      invariant Folded(f, rest) == Folded(START, events)
      invariant Follows(paras, cur, st, inPre, f)
    {
      paras, cur, st, inPre := Handle(events[i], paras, cur, st, inPre, f);
      f := Step(f, events[i]);
      i, rest := i + 1, rest[1..];
    }
    paras := Flush(paras, cur, f);
  }

  // ----- counters simulate the stack -----

  /** The open style tags, innermost last; None once a close does not match. */
  function OpenTags(events: seq<Event>): Option<seq<string>>
    decreases |events|
  {
    if events == [] then Some([])
    else
      var before := OpenTags(events[..|events| - 1]);
      match events[|events| - 1]
      case StyleOpen(style) => if before.Some? then Some(before.value + [style]) else None
      case StyleClose(style) =>
        if before.Some? && before.value != [] && before.value[|before.value| - 1] == style
        then Some(before.value[..|before.value| - 1]) else None
      case _ => before
  }

  function Occurrences(tags: seq<string>, tag: string): nat {
    multiset(tags)[tag]
  }

  lemma {:induction false} FoldedSnoc(f: Fold, events: seq<Event>, ev: Event)
    ensures Folded(f, events + [ev]) == Step(Folded(f, events), ev)
    decreases |events|
  {
    if events == [] {
      assert ([] + [ev])[1..] == [];
    } else {
      assert (events + [ev])[1..] == events[1..] + [ev];
      FoldedSnoc(Step(f, events[0]), events[1..], ev);
    }
  }

  ghost predicate Counts(s: Span, tags: seq<string>) {
    && s.bold == Occurrences(tags, "b") && s.italic == Occurrences(tags, "i")
    && s.under == Occurrences(tags, "u") && s.code == Occurrences(tags, "code")
  }

  lemma OpeningCounts(s: Span, tags: seq<string>, style: string)
    requires Counts(s, tags)
    ensures Counts(Apply(s, style, true), tags + [style])
  {
    assert multiset(tags + [style]) == multiset(tags)[style := multiset(tags)[style] + 1];
  }

  lemma ClosingCounts(s: Span, tags: seq<string>, style: string)
    requires Counts(s, tags + [style])
    ensures Counts(Apply(s, style, false), tags)
  {
    assert multiset(tags + [style]) == multiset(tags)[style := multiset(tags)[style] + 1];
  }

  lemma {:induction false} CountersCountOpenTags(events: seq<Event>)
    requires OpenTags(events).Some?
    ensures Counts(Folded(START, events).span, OpenTags(events).value)
    decreases |events|
  {
    if events != [] {
      var init, ev := events[..|events| - 1], events[|events| - 1];
      assert events == init + [ev];
      FoldedSnoc(START, init, ev);
      CountersCountOpenTags(init);
      var before, span := OpenTags(init).value, Folded(START, init).span;
      if ev.StyleOpen? {
        OpeningCounts(span, before, ev.style);
      } else if ev.StyleClose? {
        assert before == before[..|before| - 1] + [ev.style];
        ClosingCounts(span, before[..|before| - 1], ev.style);
      }
    }
  }

  /** For well-nested events, the emphasis of a text is exactly the set of tags open around it. */
  lemma TextCarriesEnclosingTags(before: seq<Event>, text: string)
    requires OpenTags(before).Some?
    ensures var f := Folded(START, before); var tags := OpenTags(before).value;
      var style := TextStyle(f.span);
      && (style.bold <==> "b" in tags) && (style.italic <==> "i" in tags)
      && (style.underline <==> "u" in tags) && (style.code <==> "code" in tags)
      && Folded(START, before + [Text(text)]) in {f, Emitted(f, Run(Shown(f, text), style))}
  {
    CountersCountOpenTags(before);
    FoldedSnoc(START, before, Text(text));
  }
}
