/** What RichParagraphs shows, read off the events themselves. */
module RichMeaning {
  import Spaces
  import opened RichSpans

  // ----- what is shown, read off the events -----

  predicate IsBoundary(ev: Event) {
    ev.BlockOpen? || ev.BlockClose?
  }

  /** The block that event n-1 stands in: blocks are what lies between boundaries, counted from 0. */
  function BlockNo(events: seq<Event>, n: nat): nat
    requires n <= |events|
  {
    if n == 0 then 0 else BlockNo(events, n - 1) + (if IsBoundary(events[n - 1]) then 1 else 0)
  }

  /** The last pre before event n was opened and not closed. */
  function InPre(events: seq<Event>, n: nat): bool
    requires n <= |events|
  {
    if n == 0 then false
    else match events[n - 1]
         case BlockOpen(tag, _) => tag == "pre" || InPre(events, n - 1)
         case BlockClose(tag) => tag != "pre" && InPre(events, n - 1)
         case _ => InPre(events, n - 1)
  }

  /** The link open around event n. */
  function LinkAt(events: seq<Event>, n: nat): string
    requires n <= |events|
  {
    if n == 0 then ""
    else match events[n - 1]
         case LinkOpen(href) => href
         case LinkClose => ""
         case _ => LinkAt(events, n - 1)
  }

  /** How deep event n stands in tags of one kind; a close without an open does not count. */
  function Depth(events: seq<Event>, n: nat, style: string): nat
    requires n <= |events|
  {
    if n == 0 then 0
    else
      var d := Depth(events, n - 1, style);
      if events[n - 1] == StyleOpen(style) then d + 1
      else if events[n - 1] == StyleClose(style) && d > 0 then d - 1
      else d
  }

  function StyleAt(events: seq<Event>, n: nat): Style
    requires n <= |events|
  {
    Style(Depth(events, n, "b") > 0, Depth(events, n, "i") > 0, Depth(events, n, "u") > 0,
          Depth(events, n, "code") > 0, LinkAt(events, n))
  }

  /** The event opens a paragraph by itself; a text does unless it is white space outside a pre. */
  ghost predicate Opens(events: seq<Event>, k: nat)
    requires k < |events|
  {
    match events[k]
    case BlockOpen(tag, _) => tag != "br"
    case Break => true
    case Image(_) => true
    case Text(text) => InPre(events, k) || Words(UnixLines(text)) != ""
    case _ => false
  }

  /** Before event n something of the same block has opened a paragraph. */
  ghost predicate IsOpen(events: seq<Event>, n: nat)
    requires n <= |events|
  {
    exists k :: 0 <= k < n && Opens(events, k) && BlockNo(events, k + 1) == BlockNo(events, n)
  }

  /** The run of an event, if it has one. */
  ghost function Given(events: seq<Event>, e: nat): seq<Run>
    requires e < |events|
  {
    match events[e]
    case Text(text) =>
      if InPre(events, e) then [Run(text, StyleAt(events, e))]
      else
        var t := Collapsed(UnixLines(text), false);
        var shown := if IsOpen(events, e) then t else TrimLeft(t);
        if shown == "" then [] else [Run(shown, StyleAt(events, e))]
    case BlockOpen(tag, _) => if tag == "li" then [Run("\U{2022} ", Style(true, false, false, false, ""))] else []
    case Break => [Run("\n", StyleAt(events, e).(underline := false, link := ""))]
    case Image(alt) =>
      var t := Spaces.TrimSpace(alt);
      [Run("[image: " + (if t == "" then "image" else t) + "]", Style(false, true, false, false, ""))]
    case _ => []
  }

  /** What the events of one block give, in order; `given[e]` is what event e gives. */
  function OfBlock<T>(events: seq<Event>, given: seq<seq<T>>, b: nat, n: nat): seq<T>
    requires n <= |events| == |given|
  {
    if n == 0 then [] else OfBlock(events, given, b, n - 1) + (if BlockNo(events, n) == b then given[n - 1] else [])
  }

  /** Tag and depth of a block: those of the event that opens it, none if a close or a line break does. */
  function HeadOf(events: seq<Event>, b: nat, n: nat): (string, int)
    requires n <= |events|
  {
    if n == 0 then ("", 0)
    else if IsBoundary(events[n - 1]) && BlockNo(events, n) == b then
      if events[n - 1].BlockOpen? && events[n - 1].tag != "br"
      then (events[n - 1].tag, events[n - 1].depth) else ("", 0)
    else HeadOf(events, b, n - 1)
  }

  function ParaOf(events: seq<Event>, given: seq<seq<Run>>, b: nat, n: nat): Para
    requires n <= |events| == |given|
  {
    Para(HeadOf(events, b, n).0, HeadOf(events, b, n).1, OfBlock(events, given, b, n))
  }

  /** The paragraphs of the first `count` blocks; a block without runs has none. */
  function ParasOf(events: seq<Event>, given: seq<seq<Run>>, count: nat, n: nat): seq<Para>
    requires n <= |events| == |given|
  {
    if count == 0 then []
    else
      var p := ParaOf(events, given, count - 1, n);
      ParasOf(events, given, count - 1, n) + (if p.runs != [] then [p] else [])
  }

  ghost function AllGiven(events: seq<Event>): seq<seq<Run>> {
    seq(|events|, e requires 0 <= e < |events| => Given(events, e))
  }

  /** The paragraphs of all blocks. */
  function Blocks(events: seq<Event>, given: seq<seq<Run>>): seq<Para>
    requires |given| == |events|
  {
    ParasOf(events, given, BlockNo(events, |events|) + 1, |events|)
  }

  /** Every block has its own paragraph, of the runs its events give. */
  ghost function Paragraphs(events: seq<Event>): seq<Para> {
    Blocks(events, AllGiven(events))
  }

  // ----- the fold against the blocks -----

  /** Closed and open paragraphs after n events. */
  ghost predicate ParasStand(events: seq<Event>, given: seq<seq<Run>>, n: nat, f: Fold, open: bool)
    requires n <= |events| == |given|
  {
    var b := BlockNo(events, n);
    && (f.cur.Some? <==> open)
    && (if open then f.cur == Option.Some(ParaOf(events, given, b, n)) else OfBlock(events, given, b, n) == [])
    && f.paras == ParasOf(events, given, b, n)
  }

  lemma {:induction false} BlocksGrow(events: seq<Event>, k: nat, n: nat)
    requires k <= n <= |events|
    ensures BlockNo(events, k) <= BlockNo(events, n)
    decreases n
  {
    if k < n { BlocksGrow(events, k, n - 1); }
  }

  lemma {:induction false} NoRunsYet(events: seq<Event>, given: seq<seq<Run>>, b: nat, n: nat)
    requires n <= |events| == |given| && BlockNo(events, n) < b
    ensures OfBlock(events, given, b, n) == []
    decreases n
  {
    if n > 0 { NoRunsYet(events, given, b, n - 1); }
  }

  /** An event changes no block before its own. */
  lemma {:induction false} ParasStay(events: seq<Event>, given: seq<seq<Run>>, count: nat, n: nat)
    requires n < |events| == |given| && count <= BlockNo(events, n + 1)
    ensures ParasOf(events, given, count, n + 1) == ParasOf(events, given, count, n)
    decreases count
  {
    if count > 0 {
      ParasStay(events, given, count - 1, n);
      assert ParaOf(events, given, count - 1, n + 1) == ParaOf(events, given, count - 1, n);
    }
  }

  lemma NothingStands(events: seq<Event>, given: seq<seq<Run>>, n: nat, f: Fold, g: Fold, open: bool)
    requires n < |events| == |given| && ParasStand(events, given, n, f, open)
    requires !IsBoundary(events[n]) && given[n] == [] && g.paras == f.paras && g.cur == f.cur
    ensures ParasStand(events, given, n + 1, g, open)
  {
    var b := BlockNo(events, n);
    ParasStay(events, given, b, n);
    assert OfBlock(events, given, b, n + 1) == OfBlock(events, given, b, n) + [] == OfBlock(events, given, b, n);
  }

  /** A run goes to the end of the block's paragraph, or opens an untagged one. */
  lemma RunStands(events: seq<Event>, given: seq<seq<Run>>, n: nat, f: Fold, run: Run, open: bool)
    requires n < |events| == |given| && ParasStand(events, given, n, f, open)
    requires !IsBoundary(events[n]) && given[n] == [run]
    requires !open ==> HeadOf(events, BlockNo(events, n), n) == ("", 0)
    ensures ParasStand(events, given, n + 1, Emitted(f, run), true)
  {
    var b := BlockNo(events, n);
    ParasStay(events, given, b, n);
    assert OfBlock(events, given, b, n + 1) == OfBlock(events, given, b, n) + [run];
  }

  /** With the open paragraph closed, all blocks so far have theirs. */
  lemma LastBlock(events: seq<Event>, given: seq<seq<Run>>, n: nat, f: Fold, open: bool)
    requires n <= |events| == |given| && ParasStand(events, given, n, f, open)
    ensures Flushed(f).paras == ParasOf(events, given, BlockNo(events, n) + 1, n)
  {
  }

  /** A boundary closes the open paragraph; a block that opens has shown what its own event gives. */
  lemma BoundaryStands(events: seq<Event>, given: seq<seq<Run>>, n: nat, f: Fold, g: Fold, open: bool)
    requires n < |events| == |given| && ParasStand(events, given, n, f, open) && IsBoundary(events[n])
    requires g.paras == Flushed(f).paras
    requires
      if events[n].BlockOpen? && events[n].tag != "br"
      then g.cur == Option.Some(Para(events[n].tag, events[n].depth, given[n]))
      else g.cur.None? && given[n] == []
    ensures ParasStand(events, given, n + 1, g, g.cur.Some?)
  {
    var b := BlockNo(events, n) + 1;
    LastBlock(events, given, n, f, open);
    ParasStay(events, given, b, n);
    NoRunsYet(events, given, b, n);
    assert OfBlock(events, given, b, n + 1) == [] + given[n] == given[n];
  }

  // ----- the fold against the events -----

  /** Style, link and pre after n events. */
  ghost predicate SpanStands(events: seq<Event>, n: nat, f: Fold)
    requires n <= |events|
  {
    && f.span.bold == Depth(events, n, "b") && f.span.italic == Depth(events, n, "i")
    && f.span.under == Depth(events, n, "u") && f.span.code == Depth(events, n, "code")
    && f.span.link == LinkAt(events, n) && f.inPre == InPre(events, n)
  }

  lemma SpanStep(events: seq<Event>, n: nat, f: Fold)
    requires n < |events| && SpanStands(events, n, f)
    ensures SpanStands(events, n + 1, Step(f, events[n]))
  {
    if events[n].StyleOpen? || events[n].StyleClose? { StyleStep(events, n, f); }
  }

  lemma StyleStep(events: seq<Event>, n: nat, f: Fold)
    requires n < |events| && SpanStands(events, n, f) && (events[n].StyleOpen? || events[n].StyleClose?)
    ensures SpanStands(events, n + 1, Step(f, events[n]))
  {
  }

  lemma OpenNext(events: seq<Event>, n: nat)
    requires n < |events|
    ensures IsOpen(events, n + 1) <==> Opens(events, n) || (!IsBoundary(events[n]) && IsOpen(events, n))
  {
    if !Opens(events, n) && IsBoundary(events[n]) {
      forall k | 1 <= k <= n
        ensures BlockNo(events, k) < BlockNo(events, n + 1)
      {
        BlocksGrow(events, k, n);
      }
    }
  }

  /** A block in which nothing has opened a paragraph has no tag. */
  lemma {:induction false} ClosedHead(events: seq<Event>, k: nat, n: nat)
    requires k <= n <= |events| && BlockNo(events, k) == BlockNo(events, n) && !IsOpen(events, n)
    ensures HeadOf(events, BlockNo(events, n), k) == ("", 0)
    decreases k
  {
    if k > 0 {
      if IsBoundary(events[k - 1]) {
        assert !Opens(events, k - 1);
      } else {
        ClosedHead(events, k - 1, n);
      }
    }
  }

  lemma {:induction false} TrimmedAway(r: string)
    requires forall i :: 0 <= i < |r| && IsGap(r[i]) ==> r[i] == ' '
    ensures TrimLeft(r) == "" <==> Words(r) == ""
  {
    if r != "" && r[0] == ' ' { TrimmedAway(r[1..]); }
  }

  /** A text outside a pre shows nothing at the start of a paragraph exactly if it is all white space. */
  lemma ShownIf(text: string)
    ensures TrimLeft(Collapsed(UnixLines(text), false)) == "" <==> Words(UnixLines(text)) == ""
  {
    CollapsedMeaning(UnixLines(text), false);
    TrimmedAway(Collapsed(UnixLines(text), false));
  }

  ghost predicate Stands(events: seq<Event>, n: nat, f: Fold)
    requires n <= |events|
  {
    SpanStands(events, n, f) && ParasStand(events, AllGiven(events), n, f, IsOpen(events, n))
  }

  lemma TextStands(events: seq<Event>, n: nat, f: Fold)
    requires n < |events| && Stands(events, n, f) && events[n].Text?
    ensures ParasStand(events, AllGiven(events), n + 1, Step(f, events[n]), IsOpen(events, n + 1))
  {
    var given := AllGiven(events);
    ShownIf(events[n].text);
    OpenNext(events, n);
    if given[n] == [] {
      NothingStands(events, given, n, f, f, IsOpen(events, n));
    } else {
      if !IsOpen(events, n) { ClosedHead(events, n, n); }
      RunStands(events, given, n, f, given[n][0], IsOpen(events, n));
    }
  }

  lemma InlineStands(events: seq<Event>, n: nat, f: Fold)
    requires n < |events| && Stands(events, n, f) && (events[n].Break? || events[n].Image?)
    ensures ParasStand(events, AllGiven(events), n + 1, Step(f, events[n]), IsOpen(events, n + 1))
  {
    var given := AllGiven(events);
    OpenNext(events, n);
    if !IsOpen(events, n) { ClosedHead(events, n, n); }
    RunStands(events, given, n, f, given[n][0], IsOpen(events, n));
  }

  lemma StandsStep(events: seq<Event>, n: nat, f: Fold)
    requires n < |events| && Stands(events, n, f)
    ensures ParasStand(events, AllGiven(events), n + 1, Step(f, events[n]), IsOpen(events, n + 1))
  {
    if events[n].Text? {
      TextStands(events, n, f);
    } else if events[n].Break? || events[n].Image? {
      InlineStands(events, n, f);
    } else {
      OpenNext(events, n);
      if IsBoundary(events[n]) {
        var g := Step(f, events[n]);
        assert g.cur.Some? ==> g.cur.value.runs == Given(events, n);
        BoundaryStands(events, AllGiven(events), n, f, g, IsOpen(events, n));
      } else {
        NothingStands(events, AllGiven(events), n, f, Step(f, events[n]), IsOpen(events, n));
      }
    }
  }

  lemma {:induction false} FoldStands(events: seq<Event>, n: nat)
    requires n <= |events|
    ensures Stands(events, n, Folded(START, events[..n]))
    decreases n
  {
    if n > 0 {
      FoldStands(events, n - 1);
      FoldedSnoc(START, events[..n - 1], events[n - 1]);
      assert events[..n] == events[..n - 1] + [events[n - 1]];
      SpanStep(events, n - 1, Folded(START, events[..n - 1]));
      StandsStep(events, n - 1, Folded(START, events[..n - 1]));
    }
  }

  /** The fold gives every block its own paragraph, with the block's tag and depth and what its events give. */
  lemma UnmergedIs(events: seq<Event>)
    ensures Unmerged(events) == Paragraphs(events)
  {
    FoldStands(events, |events|);
    assert events[..|events|] == events;
    LastBlock(events, AllGiven(events), |events|, Folded(START, events), IsOpen(events, |events|));
  }

  // ----- nothing is lost -----

  function AllGlyphs(paras: seq<Para>): seq<Glyph>
    decreases |paras|
  {
    if paras == [] then [] else AllGlyphs(paras[..|paras| - 1]) + Glyphs(paras[|paras| - 1].runs)
  }

  /** The first n sequences one after another. */
  function Flat<T>(xs: seq<seq<T>>, n: nat): seq<T>
    requires n <= |xs|
  {
    if n == 0 then [] else Flat(xs, n - 1) + xs[n - 1]
  }

  /** The same block by block. */
  function FlatBlocks<T>(events: seq<Event>, xs: seq<seq<T>>, count: nat, n: nat): seq<T>
    requires n <= |events| == |xs|
  {
    if count == 0 then [] else FlatBlocks(events, xs, count - 1, n) + OfBlock(events, xs, count - 1, n)
  }

  lemma Assoc<T>(x: seq<T>, y: seq<T>, z: seq<T>)
    ensures x + y + z == x + (y + z)
  {
  }

  lemma {:induction false} GlyphsConcat(xs: seq<Run>, ys: seq<Run>)
    ensures Glyphs(xs + ys) == Glyphs(xs) + Glyphs(ys)
    decreases |ys|
  {
    if ys == [] {
      assert xs + ys == xs;
    } else {
      var init, y := ys[..|ys| - 1], ys[|ys| - 1];
      GlyphsConcat(xs, init);
      GlyphsSnoc(xs + init, y);
      assert ys == init + [y];
      Assoc(xs, init, [y]);
      Assoc(Glyphs(xs), Glyphs(init), Styled(y));
    }
  }

  lemma {:induction false} NothingYet<T>(events: seq<Event>, xs: seq<seq<T>>, b: nat, n: nat)
    requires n <= |events| == |xs| && BlockNo(events, n) < b
    ensures OfBlock(events, xs, b, n) == []
    decreases n
  {
    if n > 0 { NothingYet(events, xs, b, n - 1); }
  }

  lemma {:induction false} FlatStays<T>(events: seq<Event>, xs: seq<seq<T>>, count: nat, n: nat)
    requires n < |events| == |xs| && count <= BlockNo(events, n + 1)
    ensures FlatBlocks(events, xs, count, n + 1) == FlatBlocks(events, xs, count, n)
    decreases count
  {
    if count > 0 {
      FlatStays(events, xs, count - 1, n);
      var x := OfBlock(events, xs, count - 1, n);
      assert x + [] == x;
    }
  }

  lemma FlatNext<T>(events: seq<Event>, xs: seq<seq<T>>, n: nat)
    requires n < |events| == |xs|
    ensures FlatBlocks(events, xs, BlockNo(events, n + 1) + 1, n + 1)
         == FlatBlocks(events, xs, BlockNo(events, n) + 1, n) + xs[n]
  {
    var b := BlockNo(events, n + 1);
    FlatStays(events, xs, b, n);
    var before := OfBlock(events, xs, b, n);
    assert OfBlock(events, xs, b, n + 1) == before + xs[n];
    if IsBoundary(events[n]) {
      NothingYet(events, xs, b, n);
      assert [] + xs[n] == xs[n];
    } else {
      Assoc(FlatBlocks(events, xs, b, n), before, xs[n]);
    }
  }

  /** Nothing is lost or moved by taking it block by block. */
  lemma {:induction false} FlatByBlocks<T>(events: seq<Event>, xs: seq<seq<T>>, n: nat)
    requires n <= |events| == |xs|
    ensures FlatBlocks(events, xs, BlockNo(events, n) + 1, n) == Flat(xs, n)
    decreases n
  {
    if n == 0 {
      FlatNone(events, xs);
    } else {
      FlatByBlocks(events, xs, n - 1);
      FlatOneMore(events, xs, n - 1, Flat(xs, n - 1));
    }
  }

  lemma FlatNone<T>(events: seq<Event>, xs: seq<seq<T>>)
    requires |events| == |xs|
    ensures FlatBlocks(events, xs, BlockNo(events, 0) + 1, 0) == []
  {
    assert FlatBlocks(events, xs, 0, 0) == [];
  }

  lemma FlatOneMore<T>(events: seq<Event>, xs: seq<seq<T>>, n: nat, before: seq<T>)
    requires n < |events| == |xs| && FlatBlocks(events, xs, BlockNo(events, n) + 1, n) == before
    ensures FlatBlocks(events, xs, BlockNo(events, n + 1) + 1, n + 1) == before + xs[n]
  {
    FlatNext(events, xs, n);
  }

  ghost predicate AreGlyphs(given: seq<seq<Run>>, shown: seq<seq<Glyph>>) {
    |shown| == |given| && forall e :: 0 <= e < |given| ==> shown[e] == Glyphs(given[e])
  }

  lemma {:induction false} BlockGlyphs(events: seq<Event>, given: seq<seq<Run>>, shown: seq<seq<Glyph>>, b: nat, n: nat)
    requires n <= |events| == |given| && AreGlyphs(given, shown)
    ensures Glyphs(OfBlock(events, given, b, n)) == OfBlock(events, shown, b, n)
    decreases n
  {
    if n > 0 {
      BlockGlyphs(events, given, shown, b, n - 1);
      if BlockNo(events, n) == b {
        GlyphsConcat(OfBlock(events, given, b, n - 1), given[n - 1]);
      } else {
        var x := OfBlock(events, given, b, n - 1);
        assert x + [] == x;
      }
    }
  }

  lemma AllGlyphsSnoc(paras: seq<Para>, p: Para)
    ensures AllGlyphs(paras + [p]) == AllGlyphs(paras) + Glyphs(p.runs)
    ensures p.runs == [] ==> AllGlyphs(paras) + Glyphs(p.runs) == AllGlyphs(paras)
  {
    assert (paras + [p])[..|paras|] == paras;
  }

  lemma {:induction false} ParasGlyphs(events: seq<Event>, given: seq<seq<Run>>, shown: seq<seq<Glyph>>, count: nat,
                                       n: nat)
    requires n <= |events| == |given| && AreGlyphs(given, shown)
    ensures AllGlyphs(ParasOf(events, given, count, n)) == FlatBlocks(events, shown, count, n)
    decreases count
  {
    if count > 0 {
      ParasGlyphs(events, given, shown, count - 1, n);
      var before, p := ParasOf(events, given, count - 1, n), ParaOf(events, given, count - 1, n);
      AllGlyphsSnoc(before, p);
      BlockGlyphs(events, given, shown, count - 1, n);
      assert before + [] == before;
    }
  }

  function Chars(glyphs: seq<Glyph>): string {
    seq(|glyphs|, i requires 0 <= i < |glyphs| => glyphs[i].c)
  }

  /** The characters that are no white space. */
  function Solid(s: string): string {
    if s == "" then "" else (if IsGap(s[0]) || s[0] == '\r' then "" else [s[0]]) + Solid(s[1..])
  }

  /** What an event says: a text, a bullet or an image's label. */
  function Said(ev: Event): string {
    match ev
    case Text(text) => text
    case BlockOpen(tag, _) => if tag == "li" then "\U{2022}" else ""
    case Image(alt) => AltText(alt)
    case _ => ""
  }

  function AllSaid(events: seq<Event>): seq<string> {
    seq(|events|, e requires 0 <= e < |events| => Said(events[e]))
  }

  lemma {:induction false} SolidConcat(s: string, t: string)
    ensures Solid(s + t) == Solid(s) + Solid(t)
  {
    if s == "" {
      assert s + t == t;
    } else {
      SolidConcat(s[1..], t);
      assert (s + t)[1..] == s[1..] + t && (s + t)[0] == s[0];
    }
  }

  lemma {:induction false} SolidOfWords(s: string)
    ensures Solid(s) == Solid(Words(s))
  {
    if s != "" {
      SolidOfWords(s[1..]);
      var r := Words(s[1..]);
      if IsGap(s[0]) {
        assert Words(s) == "" + r == r;
      } else {
        assert Words(s) == [s[0]] + r && ([s[0]] + r)[1..] == r;
      }
    }
  }

  lemma {:induction false} SolidOfUnixLines(s: string)
    ensures Solid(UnixLines(s)) == Solid(s)
  {
    if |s| >= 2 && s[0] == '\r' && s[1] == '\n' {
      SolidOfUnixLines(s[2..]);
      var r := UnixLines(s[2..]);
      assert ("\n" + r)[1..] == r && s[1..][1..] == s[2..];
    } else if s != "" {
      SolidOfUnixLines(s[1..]);
      var r := UnixLines(s[1..]);
      assert ([s[0]] + r)[1..] == r;
    }
  }

  lemma {:induction false} SolidOfTrimmed(s: string)
    ensures Solid(TrimLeft(s)) == Solid(s)
  {
    if s != "" && s[0] == ' ' { SolidOfTrimmed(s[1..]); }
  }

  /** Collapsing and trimming take away white space only. */
  lemma SolidOfShown(text: string)
    ensures Solid(Collapsed(UnixLines(text), false)) == Solid(text)
    ensures Solid(TrimLeft(Collapsed(UnixLines(text), false))) == Solid(text)
  {
    var r := Collapsed(UnixLines(text), false);
    CollapsedMeaning(UnixLines(text), false);
    SolidOfWords(r);
    SolidOfWords(UnixLines(text));
    SolidOfUnixLines(text);
    SolidOfTrimmed(r);
  }

  lemma RunChars(runs: seq<Run>)
    requires |runs| <= 1
    ensures Chars(Glyphs(runs)) == if runs == [] then "" else runs[0].text
  {
    if runs != [] {
      assert runs[..0] == [];
      assert Glyphs(runs) == [] + Styled(runs[0]) == Styled(runs[0]);
    }
  }

  lemma SolidOfGiven(events: seq<Event>, e: nat)
    requires e < |events|
    ensures |Given(events, e)| <= 1
    ensures Solid(Chars(Glyphs(Given(events, e)))) == Solid(Said(events[e]))
  {
    RunChars(Given(events, e));
    match events[e]
    case Text(text) => SolidOfShown(text);
    case BlockOpen(_, _) => SolidConcat("\U{2022}", " ");
    case _ =>
  }

  lemma SolidCharsConcat(x: seq<Glyph>, y: seq<Glyph>)
    ensures Solid(Chars(x + y)) == Solid(Chars(x)) + Solid(Chars(y))
  {
    assert Chars(x + y) == Chars(x) + Chars(y);
    SolidConcat(Chars(x), Chars(y));
  }

  ghost predicate SaysSame(shown: seq<seq<Glyph>>, said: seq<string>) {
    |shown| == |said| && forall e :: 0 <= e < |said| ==> Solid(Chars(shown[e])) == Solid(said[e])
  }

  lemma {:induction false} SolidOfFlat(shown: seq<seq<Glyph>>, said: seq<string>, n: nat)
    requires SaysSame(shown, said) && n <= |said|
    ensures Solid(Chars(Flat(shown, n))) == Solid(Flat(said, n))
    decreases n
  {
    if n > 0 {
      var x, s := Flat(shown, n - 1), Flat(said, n - 1);
      assert Solid(Chars(x)) == Solid(s) by { SolidOfFlat(shown, said, n - 1); }
      SolidOneMore(x, shown[n - 1], s, said[n - 1]);
    }
  }

  lemma SolidOneMore(x: seq<Glyph>, y: seq<Glyph>, s: string, t: string)
    requires Solid(Chars(x)) == Solid(s) && Solid(Chars(y)) == Solid(t)
    ensures Solid(Chars(x + y)) == Solid(s + t)
  {
    SolidCharsConcat(x, y);
    SolidConcat(s, t);
  }

  /** The glyphs that every event gives. */
  ghost function GlyphsGiven(events: seq<Event>): (shown: seq<seq<Glyph>>)
    ensures AreGlyphs(AllGiven(events), shown)
  {
    seq(|events|, e requires 0 <= e < |events| => Glyphs(Given(events, e)))
  }

  lemma GivenSaysSame(events: seq<Event>)
    ensures SaysSame(GlyphsGiven(events), AllSaid(events))
  {
    var shown := GlyphsGiven(events);
    forall e | 0 <= e < |events|
      ensures Solid(Chars(shown[e])) == Solid(Said(events[e]))
    {
      SolidOfGiven(events, e);
    }
  }

  lemma {:induction false} SameGlyphs(paras: seq<Para>, spec: seq<Para>)
    requires |paras| == |spec| && forall i :: 0 <= i < |paras| ==> SamePara(paras[i], spec[i])
    ensures AllGlyphs(paras) == AllGlyphs(spec)
    decreases |paras|
  {
    if paras != [] { SameGlyphs(paras[..|paras| - 1], spec[..|spec| - 1]); }
  }

  lemma BlocksShowAll(events: seq<Event>, given: seq<seq<Run>>, shown: seq<seq<Glyph>>)
    requires |given| == |events| && AreGlyphs(given, shown)
    ensures AllGlyphs(Blocks(events, given)) == Flat(shown, |events|)
  {
    var count, n := BlockNo(events, |events|) + 1, |events|;
    var a, b, c := AllGlyphs(ParasOf(events, given, count, n)), FlatBlocks(events, shown, count, n), Flat(shown, n);
    assert a == b by { ParasGlyphs(events, given, shown, count, n); }
    assert b == c by { FlatByBlocks(events, shown, n); }
  }

  lemma UncutShows(paras: seq<Para>, spec: seq<Para>)
    requires Agrees(paras, spec) && |paras| < MAX_RICH_PARAS
    ensures AllGlyphs(paras) == AllGlyphs(spec)
  {
    SameGlyphs(paras, spec);
  }

  /** What is given and said event by event is shown and said by the blocks. */
  lemma BlocksSay(events: seq<Event>, given: seq<seq<Run>>, shown: seq<seq<Glyph>>, said: seq<string>)
    requires |given| == |events| && AreGlyphs(given, shown) && SaysSame(shown, said)
    ensures AllGlyphs(Blocks(events, given)) == Flat(shown, |events|)
    ensures Solid(Chars(AllGlyphs(Blocks(events, given)))) == Solid(Flat(said, |events|))
  {
    var a, b := AllGlyphs(Blocks(events, given)), Flat(shown, |events|);
    assert a == b by { BlocksShowAll(events, given, shown); }
    assert Solid(Chars(b)) == Solid(Flat(said, |events|)) by { SolidOfFlat(shown, said, |events|); }
  }

  /** But for white space the paragraphs say, in order, what the texts, bullets and image labels say. */
  lemma ParagraphsSay(events: seq<Event>)
    ensures Solid(Chars(AllGlyphs(Paragraphs(events)))) == Solid(Flat(AllSaid(events), |events|))
  {
    var given, said := AllGiven(events), AllSaid(events);
    var shown := GlyphsGiven(events);
    assert SaysSame(shown, said) by { GivenSaysSame(events); }
    BlocksSay(events, given, shown, said);
  }

  lemma {:induction false} RunInBlock(events: seq<Event>, given: seq<seq<Run>>, e: nat, n: nat, run: Run)
    requires e < n <= |events| == |given| && run in given[e]
    ensures run in OfBlock(events, given, BlockNo(events, e + 1), n)
    decreases n
  {
    if e < n - 1 { RunInBlock(events, given, e, n - 1, run); }
  }

  lemma {:induction false} BlockInParas(events: seq<Event>, given: seq<seq<Run>>, b: nat, count: nat, n: nat)
    requires n <= |events| == |given| && b < count && OfBlock(events, given, b, n) != []
    ensures ParaOf(events, given, b, n) in ParasOf(events, given, count, n)
    decreases count
  {
    if b < count - 1 { BlockInParas(events, given, b, count - 1, n); }
  }

  lemma BlockIsShown(events: seq<Event>, given: seq<seq<Run>>, e: nat, run: Run)
    requires e < |events| == |given| && run in given[e]
    ensures var p := ParaOf(events, given, BlockNo(events, e + 1), |events|);
      p in ParasOf(events, given, BlockNo(events, |events|) + 1, |events|) && run in p.runs
  {
    BlocksGrow(events, e + 1, |events|);
    RunInBlock(events, given, e, |events|, run);
    BlockInParas(events, given, BlockNo(events, e + 1), BlockNo(events, |events|) + 1, |events|);
  }

  /** What an event gives stands in the paragraph of its own block. */
  lemma EventIsShown(events: seq<Event>, e: nat, run: Run)
    requires e < |events| && run in Given(events, e)
    ensures var p := ParaOf(events, AllGiven(events), BlockNo(events, e + 1), |events|);
      p in Paragraphs(events) && run in p.runs
  {
    BlockIsShown(events, AllGiven(events), e, run);
  }

  /** A break is shown as a newline, and a text carries the link and the tags open around it. */
  lemma GivenIs(events: seq<Event>, e: nat, run: Run)
    requires e < |events| && run in Given(events, e)
    ensures events[e].Break? ==> run.text == "\n"
    ensures events[e].Text? ==> run.style.link == LinkAt(events, e)
    ensures events[e].Text? && OpenTags(events[..e]).Some? ==> var tags := OpenTags(events[..e]).value;
      && (run.style.bold <==> "b" in tags) && (run.style.italic <==> "i" in tags)
      && (run.style.underline <==> "u" in tags) && (run.style.code <==> "code" in tags)
  {
    if events[e].Text? && OpenTags(events[..e]).Some? {
      FoldStands(events, e);
      CountersCountOpenTags(events[..e]);
    }
  }

  /**
    Converts sanitized events into paragraphs of styled runs: those of the blocks, character for character and style
    for style, cut to the first 5000, with no two adjacent runs of one style.  Below the cap they say, in order and
    but for white space, what the texts, bullets and image labels of the events say.
   */
  method RichParagraphs(events: seq<Event>) returns (paras: seq<Para>)
    ensures Agrees(paras, Paragraphs(events))
    ensures |paras| < MAX_RICH_PARAS ==>
      Solid(Chars(AllGlyphs(paras))) == Solid(Flat(AllSaid(events), |events|))
  {
    paras := FoldEvents(events);
    UnmergedIs(events);
    ParagraphsSay(events);
    if |paras| < MAX_RICH_PARAS { UncutShows(paras, Paragraphs(events)); }
  }
}
