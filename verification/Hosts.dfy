/** Host names a setup code may point at. */
module Hosts {
  import opened Ascii
  import opened Spaces

  // ----- labels -----

  function Labels(s: string): (r: seq<string>)
    ensures r != []
  {
    if s == "" then [""]
    else if s[0] == '.' then [""] + Labels(s[1..])
    else var r := Labels(s[1..]); [[s[0]] + r[0]] + r[1..]
  }

  predicate IsAlnum(c: char) {
    'a' <= c <= 'z' || 'A' <= c <= 'Z' || '0' <= c <= '9'
  }

  /** One to 63 letters, digits and hyphens, with no hyphen at either end. */
  predicate ValidLabel(l: string) {
    && 1 <= |l| <= 63 && IsAlnum(l[0]) && IsAlnum(l[|l| - 1])
    && forall i :: 0 <= i < |l| ==> IsAlnum(l[i]) || l[i] == '-'
  }

  function Decimal(s: string): int {
    if s == "" then 0 else 10 * Decimal(s[..|s| - 1]) + (s[|s| - 1] as int - '0' as int)
  }

  predicate IsOctet(l: string) {
    && 1 <= |l| <= 3 && (forall i :: 0 <= i < |l| ==> '0' <= l[i] <= '9')
    && (|l| > 1 ==> l[0] != '0') && Decimal(l) <= 255
  }

  predicate IsIPv4(labels: seq<string>) {
    |labels| == 4 && forall i :: 0 <= i < 4 ==> IsOctet(labels[i])
  }

  /** A clean multi-label name that is no address literal. */
  predicate PublicMailDomain(domain: string) {
    var labels := Labels(domain);
    && |domain| <= 253 && |labels| >= 2 && !IsIPv4(labels)
    && forall i :: 0 <= i < |labels| ==> ValidLabel(labels[i])
  }

  // ----- one host within a domain -----

  predicate HasSuffix(s: string, suffix: string) {
    |suffix| <= |s| && s[|s| - |suffix|..] == suffix
  }

  predicate HostInDomain(host: string, base: string) {
    var h, b := Lower(TrimSpace(host)), Lower(TrimSpace(base));
    h != "" && b != "" && (h == b || HasSuffix(h, "." + b))
  }

  lemma LabelsCons(c: char, s: string)
    ensures Labels([c] + s) == if c == '.' then [""] + Labels(s) else [[c] + Labels(s)[0]] + Labels(s)[1..]
  {
    assert ([c] + s)[1..] == s;
  }

  lemma Regroup<T>(x: seq<T>, y: seq<T>, z: seq<T>)
    ensures (x + y) + z == x + (y + z)
  {
  }

  lemma {:induction false} LabelsConcat(x: string, y: string)
    ensures Labels(x + ("." + y)) == Labels(x) + Labels(y)
  {
    if x == "" {
      LabelsCons('.', y);
      assert x + ("." + y) == ['.'] + y;
    } else {
      var c, rest := x[0], x[1..];
      assert x == [c] + rest;
      Regroup([c], rest, "." + y);
      LabelsCons(c, rest + ("." + y));
      LabelsCons(c, rest);
      LabelsConcat(rest, y);
      LettersConcat(c, Labels(rest), Labels(y));
    }
  }

  lemma LettersConcat(c: char, r: seq<string>, l: seq<string>)
    requires r != []
    ensures [""] + (r + l) == [""] + r + l
    ensures [[c] + (r + l)[0]] + (r + l)[1..] == [[c] + r[0]] + r[1..] + l
  {
    assert (r + l)[1..] == r[1..] + l && (r + l)[0] == r[0];
  }

  function Joined(labels: seq<string>): string
    requires labels != []
  {
    if |labels| == 1 then labels[0] else labels[0] + "." + Joined(labels[1..])
  }

  lemma {:induction false} JoinedLabels(s: string)
    ensures Joined(Labels(s)) == s
  {
    if s != "" {
      var r := Labels(s[1..]);
      JoinedLabels(s[1..]);
      if s[0] == '.' {
        assert ([""] + r)[1..] == r;
        assert Joined(Labels(s)) == "." + s[1..];
      } else {
        assert ([[s[0]] + r[0]] + r[1..])[1..] == r[1..];
        if |r| == 1 {
          assert Joined(Labels(s)) == [s[0]] + r[0];
        } else {
          assert Joined(Labels(s)) == [s[0]] + (r[0] + "." + Joined(r[1..]));
        }
      }
      assert s == [s[0]] + s[1..];
    }
  }

  lemma {:induction false} JoinedConcat(xs: seq<string>, ys: seq<string>)
    requires xs != [] && ys != []
    ensures Joined(xs + ys) == Joined(xs) + "." + Joined(ys)
  {
    assert (xs + ys)[1..] == xs[1..] + ys;
    if |xs| > 1 { JoinedConcat(xs[1..], ys); }
  }

  ghost predicate LabelSuffix(labels: seq<string>, suffix: seq<string>) {
    |suffix| <= |labels| && labels[|labels| - |suffix|..] == suffix
  }

  lemma SuffixGivesLabels(h: string, b: string)
    requires HasSuffix(h, "." + b)
    ensures LabelSuffix(Labels(h), Labels(b))
  {
    var front := h[..|h| - |b| - 1];
    assert h == front + ("." + b);
    LabelsConcat(front, b);
  }

  lemma LabelsGiveSuffix(h: string, b: string)
    requires LabelSuffix(Labels(h), Labels(b))
    ensures h == b || HasSuffix(h, "." + b)
  {
    var hs, bs := Labels(h), Labels(b);
    JoinedLabels(h);
    JoinedLabels(b);
    if |hs| > |bs| {
      var front := hs[..|hs| - |bs|];
      assert hs == front + bs;
      JoinedConcat(front, bs);
      Regroup(Joined(front), ".", b);
      assert h == Joined(front) + ("." + b);
    } else {
      assert hs == bs;
    }
  }

  /**
    A host is in a domain exactly when the domain's labels are the last labels of the host: a name that merely ends
    with the same letters is not.
   */
  lemma InDomainIsLabelSuffix(host: string, base: string)
    requires Lower(TrimSpace(host)) != "" && Lower(TrimSpace(base)) != ""
    ensures HostInDomain(host, base)
      <==> LabelSuffix(Labels(Lower(TrimSpace(host))), Labels(Lower(TrimSpace(base))))
  {
    var h, b := Lower(TrimSpace(host)), Lower(TrimSpace(base));
    if HasSuffix(h, "." + b) { SuffixGivesLabels(h, b); }
    if LabelSuffix(Labels(h), Labels(b)) { LabelsGiveSuffix(h, b); }
  }
}
