/** Conversation keys from subjects, and the subjects replies and forwards are given. */
module ThreadKey {
  import opened Ascii
  import opened Spaces

  datatype Option<T> = None | Some(value: T)

  // ----- the prefixes, as the pattern describes them -----

  /** The pattern's white space class. */
  predicate IsBlank(c: char) {
    c == '\t' || c == '\n' || c == '\U{0C}' || c == '\r' || c == ' '
  }

  predicate IsDigit(c: char) {
    '0' <= c <= '9'
  }

  /** Case folding of one letter; the long s folds to s. */
  predicate Folds(c: char, letter: char) {
    LowerChar(c) == letter || (letter == 's' && c == '\U{17F}')
  }

  predicate IsWord(w: string) {
    || (|w| == 2 && Folds(w[0], 'r') && Folds(w[1], 'e'))
    || (|w| == 2 && Folds(w[0], 'f') && Folds(w[1], 'w'))
    || (|w| == 3 && Folds(w[0], 'f') && Folds(w[1], 'w') && Folds(w[2], 'd'))
    || (|w| == 2 && Folds(w[0], 'a') && Folds(w[1], 'w'))
    || (|w| == 2 && Folds(w[0], 's') && Folds(w[1], 'v'))
  }

  predicate Blanks(s: string) {
    forall i :: 0 <= i < |s| ==> IsBlank(s[i])
  }

  predicate Digits(s: string) {
    forall i :: 0 <= i < |s| ==> IsDigit(s[i])
  }

  /** One recognised prefix, such as `Re [2] : `; no digits means no bracket. */
  datatype Prefix = Prefix(word: string, gap: string, digits: string, gap2: string, tail: string) {
    ghost predicate Valid() {
      IsWord(word) && Blanks(gap) && Digits(digits) && Blanks(gap2) && Blanks(tail)
    }

    function Index(): string {
      if digits == "" then "" else "[" + digits + "]"
    }

    function Text(): string {
      word + (gap + (Index() + (gap2 + (":" + tail))))
    }
  }

  function StackText(stack: seq<Prefix>): string {
    if stack == [] then "" else stack[0].Text() + StackText(stack[1..])
  }

  ghost predicate ValidStack(stack: seq<Prefix>) {
    forall i :: 0 <= i < |stack| ==> stack[i].Valid()
  }

  // ----- stripping them, as the matcher does -----

  function SkipBlanks(s: string): string {
    if s != "" && IsBlank(s[0]) then SkipBlanks(s[1..]) else s
  }

  function SkipDigits(s: string): string {
    if s != "" && IsDigit(s[0]) then SkipDigits(s[1..]) else s
  }

  function SkipWord(s: string): Option<string> {
    if |s| >= 3 && IsWord(s[..3]) then Some(s[3..])
    else if |s| >= 2 && IsWord(s[..2]) then Some(s[2..])
    else None
  }

  /** A bracket counts only when it is complete. */
  function SkipIndex(s: string): string {
    if |s| >= 2 && s[0] == '[' && IsDigit(s[1]) then
      var rest := SkipDigits(s[1..]);
      if rest != "" && rest[0] == ']' then rest[1..] else s
    else s
  }

  function AfterWord(s: string): Option<string> {
    var rest := SkipBlanks(SkipIndex(SkipBlanks(s)));
    if rest != "" && rest[0] == ':' then Some(SkipBlanks(rest[1..])) else None
  }

  function SkipPrefix(s: string): Option<string> {
    var rest := SkipWord(s);
    if rest.None? then None else AfterWord(rest.value)
  }

  lemma {:induction false} SkipBlanksIs(s: string)
    ensures var r := SkipBlanks(s);
      |r| <= |s| && r == s[|s| - |r|..] && Blanks(s[..|s| - |r|]) && (r != "" ==> !IsBlank(r[0]))
  {
    if s != "" && IsBlank(s[0]) {
      SkipBlanksIs(s[1..]);
      var n := |s| - |SkipBlanks(s)|;
      assert s[..n] == [s[0]] + s[1..][..n - 1];
    }
  }

  lemma {:induction false} SkipDigitsIs(s: string)
    ensures var r := SkipDigits(s); |r| <= |s| && r == s[|s| - |r|..] && Digits(s[..|s| - |r|])
  {
    if s != "" && IsDigit(s[0]) {
      SkipDigitsIs(s[1..]);
      var n := |s| - |SkipDigits(s)|;
      assert s[..n] == [s[0]] + s[1..][..n - 1];
    }
  }

  lemma {:induction false} SkipBlanksPast(gap: string, s: string)
    requires Blanks(gap)
    ensures SkipBlanks(gap + s) == SkipBlanks(s)
  {
    if gap == "" {
      assert gap + s == s;
    } else {
      assert (gap + s)[1..] == gap[1..] + s;
      SkipBlanksPast(gap[1..], s);
    }
  }

  lemma {:induction false} SkipDigitsPast(digits: string, s: string)
    requires Digits(digits)
    ensures SkipDigits(digits + s) == SkipDigits(s)
  {
    if digits == "" {
      assert digits + s == s;
    } else {
      assert (digits + s)[1..] == digits[1..] + s;
      SkipDigitsPast(digits[1..], s);
    }
  }

  function Shorter(s: string): (r: string)
    ensures SkipPrefix(s).Some? ==> |r| < |s|
  {
    if SkipPrefix(s).Some? then (PrefixShortens(s); SkipPrefix(s).value) else s
  }

  lemma IndexIs(s: string)
    ensures |SkipIndex(s)| <= |s|
  {
    if |s| >= 2 { SkipDigitsIs(s[1..]); }
  }

  lemma PrefixShortens(s: string)
    requires SkipPrefix(s).Some?
    ensures |SkipPrefix(s).value| < |s|
  {
    var a := SkipWord(s).value;
    SkipBlanksIs(a);
    IndexIs(SkipBlanks(a));
    SkipBlanksIs(SkipIndex(SkipBlanks(a)));
    SkipBlanksIs(SkipBlanks(SkipIndex(SkipBlanks(a)))[1..]);
  }

  function SkipPrefixes(s: string): string
    decreases |s|
  {
    if SkipPrefix(s).Some? then SkipPrefixes(Shorter(s)) else s
  }

  /** Replaces the longest stack of prefixes at the start, if there is one, by nothing. */
  function Strip(s: string): string {
    if SkipPrefix(SkipBlanks(s)).Some? then SkipPrefixes(SkipBlanks(s)) else s
  }

  // ----- the matcher follows the pattern -----

  lemma WordThen(p: Prefix, rest: string)
    requires p.Valid() && rest != "" && !Folds(rest[0], 'd')
    ensures SkipWord(p.word + rest) == Some(rest)
  {
    var s := p.word + rest;
    if |p.word| == 3 {
      assert s[..3] == p.word && s[3..] == rest;
    } else {
      assert s[..2] == p.word && s[2..] == rest;
      assert |s| >= 3 && s[2] == rest[0];
    }
  }

  lemma IndexThen(p: Prefix, rest: string)
    requires p.Valid() && (rest != "" && rest[0] != '[')
    ensures SkipIndex(p.Index() + rest) == rest
  {
    if p.digits == "" {
      assert "" + rest == rest;
    } else {
      var s := p.Index() + rest;
      assert s[1..] == p.digits + ("]" + rest);
      SkipDigitsPast(p.digits, "]" + rest);
      assert s[1] == p.digits[0];
      assert ("]" + rest)[1..] == rest;
    }
  }

  lemma ColonThen(tail: string, s: string)
    requires Blanks(tail)
    ensures var rest := ":" + tail + s;
      rest[0] == ':' && SkipBlanks(rest) == rest && SkipBlanks(rest[1..]) == SkipBlanks(s)
  {
    var rest := ":" + tail + s;
    assert rest[1..] == tail + s;
    SkipBlanksPast(tail, s);
  }

  lemma AfterWordThen(p: Prefix, s: string)
    requires p.Valid()
    ensures AfterWord(p.gap + (p.Index() + (p.gap2 + (":" + p.tail + s)))) == Some(SkipBlanks(s))
  {
    var d := ":" + p.tail + s;
    ColonThen(p.tail, s);
    var c := p.gap2 + d;
    SkipBlanksPast(p.gap2, d);
    var b := p.Index() + c;
    SkipBlanksPast(p.gap, b);
    if p.digits == "" {
      assert b == c;
      SkipBlanksPast(p.gap2, d);
      assert SkipIndex(d) == d;
    } else {
      assert b[0] == '[' && SkipBlanks(b) == b;
      assert c != "" && c[0] != '[' by { if p.gap2 != "" { assert c[0] == p.gap2[0]; } else { assert c == d; } }
      IndexThen(p, c);
    }
  }

  /** A written prefix is skipped, with the blanks after it. */
  lemma PrefixThen(p: Prefix, s: string)
    requires p.Valid()
    ensures SkipPrefix(p.Text() + s) == Some(SkipBlanks(s))
  {
    var rest := p.gap + (p.Index() + (p.gap2 + (":" + p.tail + s)));
    assert p.Text() + s == p.word + rest;
    assert !Folds(rest[0], 'd') by {
      if p.gap != "" {
        assert rest[0] == p.gap[0];
      } else if p.digits != "" {
        assert rest[0] == '[';
      } else if p.gap2 != "" {
        assert rest[0] == p.gap2[0];
      } else {
        assert rest[0] == ':';
      }
    }
    WordThen(p, rest);
    AfterWordThen(p, s);
  }

  lemma PrefixStartsWithLetter(p: Prefix, s: string)
    requires p.Valid()
    ensures SkipBlanks(p.Text() + s) == p.Text() + s
  {
    assert (p.Text() + s)[0] == p.word[0];
  }

  lemma {:induction false} StackThen(stack: seq<Prefix>, s: string)
    requires ValidStack(stack) && stack != []
    ensures SkipPrefixes(StackText(stack) + s) == SkipPrefixes(SkipBlanks(s))
    ensures SkipPrefix(StackText(stack) + s).Some? && SkipBlanks(StackText(stack) + s) == StackText(stack) + s
  {
    var more := StackText(stack[1..]) + s;
    Regroup(stack[0].Text(), StackText(stack[1..]), s);
    PrefixThen(stack[0], more);
    PrefixStartsWithLetter(stack[0], more);
    if |stack| == 1 {
      assert stack[1..] == [] && more == s;
    } else {
      StackThen(stack[1..], s);
    }
  }

  lemma {:induction false} SkipPrefixesShortens(s: string)
    ensures |SkipPrefixes(s)| <= |s|
    decreases |s|
  {
    if SkipPrefix(s).Some? { SkipPrefixesShortens(Shorter(s)); }
  }

  lemma BlanksSkipped(s: string) returns (gap: string)
    ensures Blanks(gap) && s == gap + SkipBlanks(s)
  {
    SkipBlanksIs(s);
    gap := s[..|s| - |SkipBlanks(s)|];
  }

  lemma WordSkipped(s: string) returns (word: string)
    requires SkipWord(s).Some?
    ensures IsWord(word) && s == word + SkipWord(s).value
  {
    word := s[..|s| - |SkipWord(s).value|];
  }

  lemma DigitsSkipped(s: string) returns (digits: string)
    ensures Digits(digits) && s == digits + SkipDigits(s)
    ensures s != "" && IsDigit(s[0]) ==> digits != ""
  {
    SkipDigitsIs(s);
    if s != "" && IsDigit(s[0]) { SkipDigitsIs(s[1..]); }
    digits := s[..|s| - |SkipDigits(s)|];
  }

  lemma IndexSkipped(s: string) returns (digits: string)
    ensures Digits(digits) && s == (if digits == "" then "" else "[" + digits + "]") + SkipIndex(s)
  {
    digits := "";
    if |s| >= 2 && s[0] == '[' && IsDigit(s[1]) {
      var rest := SkipDigits(s[1..]);
      if rest != "" && rest[0] == ']' {
        digits := DigitsSkipped(s[1..]);
        assert s == "[" + (digits + rest) && rest == "]" + rest[1..];
        Regroup("[", digits, "]" + rest[1..]);
        Regroup("[" + digits, "]", rest[1..]);
      }
    }
  }

  /** The text one successful skip went over is a recognised prefix. */
  lemma SkippedIsPrefix(s: string) returns (p: Prefix)
    requires SkipPrefix(s).Some?
    ensures p.Valid() && s == p.Text() + SkipPrefix(s).value
  {
    var word := WordSkipped(s);
    var a := SkipWord(s).value;
    var gap := BlanksSkipped(a);
    var b := SkipBlanks(a);
    var digits := IndexSkipped(b);
    var c := SkipIndex(b);
    var gap2 := BlanksSkipped(c);
    var d := SkipBlanks(c);
    var tail := BlanksSkipped(d[1..]);
    var e := SkipBlanks(d[1..]);
    p := Prefix(word, gap, digits, gap2, tail);
    assert d == ":" + d[1..];
    Assembled(p, e);
    assert p.gap2 + (":" + (p.tail + e)) == c && p.Index() + c == b;
  }

  lemma Assembled(p: Prefix, e: string)
    ensures p.Text() + e == p.word + (p.gap + (p.Index() + (p.gap2 + (":" + (p.tail + e)))))
  {
    Regroup(p.word, p.gap + (p.Index() + (p.gap2 + (":" + p.tail))), e);
    Regroup(p.gap, p.Index() + (p.gap2 + (":" + p.tail)), e);
    Regroup(p.Index(), p.gap2 + (":" + p.tail), e);
    Regroup(p.gap2, ":" + p.tail, e);
    Regroup(":", p.tail, e);
  }

  lemma Regroup(x: string, y: string, z: string)
    ensures (x + y) + z == x + (y + z)
  {
  }

  lemma {:induction false} SkippedIsStack(s: string) returns (stack: seq<Prefix>)
    ensures ValidStack(stack) && s == StackText(stack) + SkipPrefixes(s)
    ensures SkipPrefix(s).Some? <==> stack != []
    decreases |s|
  {
    if SkipPrefix(s).None? { return []; }
    var p := SkippedIsPrefix(s);
    var rest := SkippedIsStack(Shorter(s));
    stack := [p] + rest;
    assert stack[0] == p && stack[1..] == rest;
    Regroup(p.Text(), StackText(rest), SkipPrefixes(s));
  }

  ghost predicate StartsWithStack(s: string, lead: string, stack: seq<Prefix>, rest: string) {
    Blanks(lead) && ValidStack(stack) && stack != [] && s == lead + (StackText(stack) + rest)
  }

  lemma StackStrips(s: string, lead: string, stack: seq<Prefix>, rest: string)
    requires StartsWithStack(s, lead, stack, rest)
    ensures SkipPrefix(SkipBlanks(s)).Some? && Strip(s) == SkipPrefixes(SkipBlanks(rest))
  {
    SkipBlanksPast(lead, StackText(stack) + rest);
    StackThen(stack, rest);
  }

  lemma StripRemovesStack(s: string) returns (lead: string, stack: seq<Prefix>)
    requires SkipPrefix(SkipBlanks(s)).Some?
    ensures StartsWithStack(s, lead, stack, Strip(s))
  {
    lead := BlanksSkipped(s);
    var body := SkipBlanks(s);
    stack := SkippedIsStack(body);
  }

  /**
    Stripping removes a stack of prefixes if the text starts with one, the longest there is, and otherwise leaves
    the text alone.
   */
  lemma StripRemovesLongestStack(s: string)
    ensures (exists lead, stack, rest :: StartsWithStack(s, lead, stack, rest))
      ==> exists lead, stack :: StartsWithStack(s, lead, stack, Strip(s))
    ensures (forall lead, stack, rest :: !StartsWithStack(s, lead, stack, rest)) ==> Strip(s) == s
    ensures forall lead, stack, rest :: StartsWithStack(s, lead, stack, rest) ==> |Strip(s)| <= |rest|
  {
    forall lead, stack, rest | StartsWithStack(s, lead, stack, rest)
      ensures |Strip(s)| <= |rest| && SkipPrefix(SkipBlanks(s)).Some?
    {
      StackStrips(s, lead, stack, rest);
      SkipBlanksIs(rest);
      SkipPrefixesShortens(SkipBlanks(rest));
    }
    if SkipPrefix(SkipBlanks(s)).Some? {
      var lead, stack := StripRemovesStack(s);
    }
  }

  /** More text at the end does not hide a stack. */
  lemma MoreTextKeepsStack(s: string, more: string)
    requires SkipPrefix(SkipBlanks(s)).Some?
    ensures SkipPrefix(SkipBlanks(s + more)).Some?
  {
    var lead, stack := StripRemovesStack(s);
    Regroup(lead, StackText(stack) + Strip(s), more);
    Regroup(StackText(stack), Strip(s), more);
    StackStrips(s + more, lead, stack, Strip(s) + more);
  }

  // ----- threads -----

  function Normal(subject: string): string {
    Lower(TrimSpace(Strip(subject)))
  }

  function ThreadID(subject: string, messageID: string, inReplyTo: string): string {
    if Normal(subject) != "" then "subj:" + Normal(subject)
    else if inReplyTo != "" then "ref:" + inReplyTo
    else "msg:" + messageID
  }

  lemma {:induction false} SkipBlanksKeepsTrimmed(s: string)
    ensures TrimSpace(SkipBlanks(s)) == TrimSpace(s)
  {
    if s != "" && IsBlank(s[0]) { SkipBlanksKeepsTrimmed(s[1..]); }
  }

  /** Any stack of recognised prefixes in front of any subject leaves its normal form. */
  lemma StackKeepsNormal(lead: string, stack: seq<Prefix>, subject: string)
    requires Blanks(lead) && ValidStack(stack) && stack != []
    ensures Normal(lead + (StackText(stack) + subject)) == Normal(subject)
  {
    StackStrips(lead + (StackText(stack) + subject), lead, stack, subject);
    SkipBlanksKeepsTrimmed(subject);
  }

  /** So such messages share a thread, whatever their ids, exactly when that form is not empty. */
  lemma ThreadIsStableIff(lead: string, stack: seq<Prefix>, subject: string)
    requires Blanks(lead) && ValidStack(stack) && stack != []
    ensures Normal(subject) != "" <==>
      forall m1, r1, m2, r2 :: ThreadID(lead + (StackText(stack) + subject), m1, r1) == ThreadID(subject, m2, r2)
  {
    var s := lead + (StackText(stack) + subject);
    StackKeepsNormal(lead, stack, subject);
    if Normal(subject) == "" {
      assert ThreadID(s, "", "")[4..] == "" && ThreadID(subject, "a", "")[4..] == "a";
    }
  }

  /** Without a stack nothing is stripped: the normal form is the subject, trimmed and in lower case. */
  lemma PlainNormal(subject: string)
    requires forall lead, stack, rest :: !StartsWithStack(subject, lead, stack, rest)
    ensures var t := TrimSpace(subject);
      |Normal(subject)| == |t| && forall i :: 0 <= i < |t| ==> Normal(subject)[i] == LowerChar(t[i])
  {
    StripRemovesLongestStack(subject);
  }

  /**
    Two messages are in one thread exactly if their normal forms agree and say something; or if neither says anything
    and they answer the same message, or neither answers one and they are one message.
   */
  lemma SameThreadIff(s1: string, m1: string, r1: string, s2: string, m2: string, r2: string)
    ensures ThreadID(s1, m1, r1) == ThreadID(s2, m2, r2) <==>
      || (Normal(s1) != "" && Normal(s1) == Normal(s2))
      || (Normal(s1) == "" && Normal(s2) == "" && r1 != "" && r1 == r2)
      || (Normal(s1) == "" && Normal(s2) == "" && r1 == "" && r2 == "" && m1 == m2)
  {
    PrefixedApart("subj:", Normal(s1), "ref:", r2);
    PrefixedApart("subj:", Normal(s1), "msg:", m2);
    PrefixedApart("subj:", Normal(s2), "ref:", r1);
    PrefixedApart("subj:", Normal(s2), "msg:", m1);
    PrefixedApart("ref:", r1, "msg:", m2);
    PrefixedApart("ref:", r2, "msg:", m1);
    PrefixedAlike("subj:", Normal(s1), Normal(s2));
    PrefixedAlike("ref:", r1, r2);
    PrefixedAlike("msg:", m1, m2);
  }

  lemma PrefixedApart(p: string, x: string, q: string, y: string)
    requires p != "" && q != "" && p[0] != q[0]
    ensures p + x != q + y
  {
    assert (p + x)[0] == p[0] && (q + y)[0] == q[0];
  }

  lemma PrefixedAlike(p: string, x: string, y: string)
    ensures p + x == p + y <==> x == y
  {
    assert (p + x)[|p|..] == x && (p + y)[|p|..] == y;
  }

  // ----- the composer -----

  function ReplySubject(subject: string): string {
    if subject != "" && !HasPrefix(Lower(subject), "re:") then "Re: " + subject else subject
  }

  function ForwardSubject(subject: string): string {
    if subject != "" && !HasPrefix(Lower(subject), "fwd:") then "Fwd: " + subject else subject
  }

  /** The subject a draft is sent with. */
  function SentSubject(field: string): string {
    TrimSpace(field)
  }

  const RE := Prefix("Re", "", "", "", " ")
  const FWD := Prefix("Fwd", "", "", "", " ")

  lemma ReplyIsStacked(subject: string)
    ensures RE.Valid() && StackText([RE]) == "Re: " && FWD.Valid() && StackText([FWD]) == "Fwd: "
    ensures "Re: " + subject == "" + (StackText([RE]) + subject)
    ensures "Fwd: " + subject == "" + (StackText([FWD]) + subject)
  {
    assert RE.Text() == "Re: " && FWD.Text() == "Fwd: ";
    assert [RE][1..] == [] && [FWD][1..] == [];
  }

  /** Replies and forwards of a subject are marked as such, once however often. */
  lemma PrefilledIsMarkedOnce(subject: string)
    ensures var r, f := ReplySubject(subject), ForwardSubject(subject);
      && (subject != "" ==> HasPrefix(Lower(r), "re:") && HasPrefix(Lower(f), "fwd:"))
      && r in {subject, "Re: " + subject} && f in {subject, "Fwd: " + subject}
      && ReplySubject(r) == r && ForwardSubject(f) == f
  {
    var r, f := "Re: " + subject, "Fwd: " + subject;
    assert Lower(r)[..3] == "re:" && Lower(f)[..4] == "fwd:";
  }

  lemma PrefilledKeepsNormal(subject: string)
    ensures Normal(ReplySubject(subject)) == Normal(subject) == Normal(ForwardSubject(subject))
  {
    ReplyIsStacked(subject);
    StackKeepsNormal("", [RE], subject);
    StackKeepsNormal("", [FWD], subject);
  }

  /** White space at the end does not matter either, as long as the subject says something. */
  lemma {:induction false} TrailingSpaceKeepsNormal(subject: string)
    requires Normal(subject) != ""
    ensures Normal(TrimRightSpace(subject)) == Normal(subject)
    decreases |subject|
  {
    var trimmed := TrimRightSpace(subject);
    TrimRightIs(subject);
    if SkipPrefix(SkipBlanks(subject)).Some? {
      var lead, stack := StripRemovesStack(subject);
      var rest := Strip(subject);
      StackKeepsNormal(lead, stack, rest);
      TrailingSpaceKeepsNormal(rest);
      TrimRightFirst(rest);
      var front := lead + StackText(stack);
      Regroup(lead, StackText(stack), rest);
      TrimRightOfConcat(front, rest);
      Regroup(lead, StackText(stack), TrimRightSpace(rest));
      StackKeepsNormal(lead, stack, TrimRightSpace(rest));
    } else {
      var more := subject[|trimmed|..];
      assert subject == trimmed + more;
      if SkipPrefix(SkipBlanks(trimmed)).Some? { MoreTextKeepsStack(trimmed, more); }
      TrimRightFirst(subject);
    }
  }

  lemma PrefilledStartsWithLetter(subject: string)
    requires subject != ""
    ensures TrimSpace(ReplySubject(subject)) == TrimRightSpace(ReplySubject(subject))
    ensures TrimSpace(ForwardSubject(subject)) == TrimRightSpace(ForwardSubject(subject))
  {
    assert LowerChar(ReplySubject(subject)[0]) == 'r' by {
      if HasPrefix(Lower(subject), "re:") { assert Lower(subject)[0] == "re:"[0]; }
    }
    assert LowerChar(ForwardSubject(subject)[0]) == 'f' by {
      if HasPrefix(Lower(subject), "fwd:") { assert Lower(subject)[0] == "fwd:"[0]; }
    }
  }

  /**
    A reply or a forward, sent with the subject the composer proposes, lands in the thread of the message it
    answers, whatever the ids, for every subject that says something.
   */
  lemma SentReplyJoinsThread(subject: string, m1: string, r1: string, m2: string, r2: string)
    requires Normal(subject) != ""
    ensures ThreadID(SentSubject(ReplySubject(subject)), m1, r1) == ThreadID(subject, m2, r2)
    ensures ThreadID(SentSubject(ForwardSubject(subject)), m1, r1) == ThreadID(subject, m2, r2)
  {
    PrefilledKeepsNormal(subject);
    PrefilledStartsWithLetter(subject);
    TrailingSpaceKeepsNormal(ReplySubject(subject));
    TrailingSpaceKeepsNormal(ForwardSubject(subject));
  }
}
