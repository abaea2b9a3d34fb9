/** The string helpers of the Go standard library that the modelled code calls, for ASCII letters. */
module Ascii {
  predicate HasPrefix(s: string, p: string) {
    p <= s
  }

  function LowerChar(c: char): char {
    if 'A' <= c <= 'Z' then c - 'A' + 'a' else c
  }

  function Lower(s: string): string {
    seq(|s|, i requires 0 <= i < |s| => LowerChar(s[i]))
  }
}

/** Unicode white space and strings.TrimSpace. */
module Spaces {
  /** unicode.IsSpace. */
  predicate IsSpace(c: char) {
    || '\t' <= c <= '\r' || c == ' ' || c == '\U{85}' || c == '\U{A0}' || c == '\U{1680}'
    || '\U{2000}' <= c <= '\U{200A}'
    || c == '\U{2028}' || c == '\U{2029}' || c == '\U{202F}' || c == '\U{205F}' || c == '\U{3000}'
  }

  function TrimLeftSpace(s: string): string {
    if s != "" && IsSpace(s[0]) then TrimLeftSpace(s[1..]) else s
  }

  function TrimRightSpace(s: string): string {
    if s != "" && IsSpace(s[|s| - 1]) then TrimRightSpace(s[..|s| - 1]) else s
  }

  function TrimSpace(s: string): string {
    TrimRightSpace(TrimLeftSpace(s))
  }

  /** Nothing to trim at either end. */
  ghost predicate Trimmed(s: string) {
    s == "" || (!IsSpace(s[0]) && !IsSpace(s[|s| - 1]))
  }

  lemma TrimmedIsFixed(s: string)
    requires Trimmed(s)
    ensures TrimSpace(s) == s && TrimSpace(" " + s) == s
  {
    assert (" " + s)[1..] == s;
    assert IsSpace(' ');
  }

  lemma {:induction false} TrimRightIs(s: string)
    ensures var r := TrimRightSpace(s); |r| <= |s| && r == s[..|r|]
  {
    if s != "" && IsSpace(s[|s| - 1]) { TrimRightIs(s[..|s| - 1]); }
  }

  /** Trimming takes white space away at the ends, as much as there is, and nothing else. */
  lemma TrimSpaceIs(s: string) returns (left: string, right: string)
    ensures s == left + TrimSpace(s) + right && Trimmed(TrimSpace(s))
    ensures (forall i :: 0 <= i < |left| ==> IsSpace(left[i])) && (forall i :: 0 <= i < |right| ==> IsSpace(right[i]))
  {
    left := TrimmedLeft(s);
    var t := TrimLeftSpace(s);
    right := TrimmedRight(t);
    if TrimSpace(s) != "" { assert TrimSpace(s)[0] == t[0]; }
    assert left + (TrimSpace(s) + right) == left + TrimSpace(s) + right;
  }

  lemma {:induction false} TrimmedLeft(s: string) returns (left: string)
    ensures s == left + TrimLeftSpace(s) && forall i :: 0 <= i < |left| ==> IsSpace(left[i])
    ensures TrimLeftSpace(s) != "" ==> !IsSpace(TrimLeftSpace(s)[0])
  {
    left := "";
    if s != "" && IsSpace(s[0]) {
      var rest := TrimmedLeft(s[1..]);
      left := [s[0]] + rest;
    }
  }

  lemma {:induction false} TrimmedRight(s: string) returns (right: string)
    ensures s == TrimRightSpace(s) + right && forall i :: 0 <= i < |right| ==> IsSpace(right[i])
    ensures TrimRightSpace(s) != "" ==> !IsSpace(TrimRightSpace(s)[|TrimRightSpace(s)| - 1])
  {
    right := "";
    if s != "" && IsSpace(s[|s| - 1]) {
      var rest := TrimmedRight(s[..|s| - 1]);
      right := rest + [s[|s| - 1]];
    }
  }

  lemma {:induction false} TrimLeftSnoc(s: string, c: char)
    requires IsSpace(c)
    ensures TrimLeftSpace(s + [c]) == if TrimLeftSpace(s) == "" then "" else TrimLeftSpace(s) + [c]
  {
    if s == "" {
      assert (s + [c])[1..] == "";
    } else {
      assert (s + [c])[1..] == s[1..] + [c];
      if IsSpace(s[0]) { TrimLeftSnoc(s[1..], c); }
    }
  }

  /** The order of the two trims does not matter. */
  lemma {:induction false} TrimRightFirst(s: string)
    ensures TrimSpace(TrimRightSpace(s)) == TrimSpace(s)
  {
    if s != "" && IsSpace(s[|s| - 1]) {
      var init, c := s[..|s| - 1], s[|s| - 1];
      TrimRightFirst(init);
      TrimLeftSnoc(init, c);
      assert s == init + [c];
      var t := TrimLeftSpace(init);
      assert (t + [c])[..|t|] == t;
    }
  }

  lemma {:induction false} TrimRightOfConcat(x: string, y: string)
    requires TrimRightSpace(y) != ""
    ensures TrimRightSpace(x + y) == x + TrimRightSpace(y)
  {
    if IsSpace(y[|y| - 1]) {
      assert (x + y)[..|x + y| - 1] == x + y[..|y| - 1];
      TrimRightOfConcat(x, y[..|y| - 1]);
    }
  }
}
