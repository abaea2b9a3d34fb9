/**
  The chat event stream: lines into typed events.  Standard: section 9.2 of the WHATWG HTML standard, for events
  of one data line.
 */
module Sse {
  import opened Ascii
  import opened Spaces

  datatype Option<T> = None | Some(value: T)

  datatype Envelope = Envelope(id: string, from: string, ciphertext: string, burnSeconds: int, mode: string)

  datatype Receipt = Receipt(id: string, status: string)

  datatype Event = Message(env: Envelope) | State(receipt: Receipt) | Ping

  /** The JSON payloads, of which only the round trip is used. */
  datatype Codec = Codec(
    readEnvelope: string -> Option<Envelope>, writeEnvelope: Envelope -> string,
    readReceipt: string -> Option<Receipt>, writeReceipt: Receipt -> string)

  /** Written payloads are one line without surrounding white space, and read back. */
  ghost predicate Lawful(c: Codec) {
    && (forall e :: c.readEnvelope(c.writeEnvelope(e)) == Some(e) && Payload(c.writeEnvelope(e)))
    && (forall r :: c.readReceipt(c.writeReceipt(r)) == Some(r) && Payload(c.writeReceipt(r)))
  }

  ghost predicate Payload(s: string) {
    Trimmed(s) && '\n' !in s
  }

  function BuildEvent(c: Codec, name: string, data: string): Option<Event> {
    if name == "envelope" then
      var w := c.readEnvelope(data);
      if w.None? || w.value.id == "" then None else Some(Message(w.value))
    else if name == "receipt" then
      var w := c.readReceipt(data);
      if w.None? || w.value.id == "" then None else Some(State(w.value))
    else if name == "ping" then Some(Ping)
    else None
  }

  function Built(c: Codec, name: string, data: string): seq<Event> {
    var ev := BuildEvent(c, name, data);
    if ev.Some? then [ev.value] else []
  }

  /** The events of the lines still to come, given the fields already read of the open one. */
  function Parsed(c: Codec, name: string, data: string, lines: seq<string>): seq<Event>
    decreases |lines|
  {
    if lines == [] then []
    else if lines[0] == "" then Built(c, name, data) + Parsed(c, "", "", lines[1..])
    else if HasPrefix(lines[0], "event:") then Parsed(c, TrimSpace(lines[0][6..]), data, lines[1..])
    else if HasPrefix(lines[0], "data:") then Parsed(c, name, data + TrimSpace(lines[0][5..]), lines[1..])
    else Parsed(c, name, data, lines[1..])
  }

  method ParseSSE(c: Codec, lines: seq<string>) returns (events: seq<Event>)
    ensures events == Parsed(c, "", "", lines)
  {
    events := [];
    var name, data := "", "";
    var i := 0;
    ghost var rest := lines;
    while i < |lines|
      invariant 0 <= i <= |lines| && rest == lines[i..]
      invariant events + Parsed(c, name, data, rest) == Parsed(c, "", "", lines)
    {
      var line := lines[i];
      if line == "" {
        var ev := BuildEvent(c, name, data);
        name, data := "", "";
        if ev.Some? { events := events + [ev.value]; }
      } else if HasPrefix(line, "event:") {
        name := TrimSpace(line[6..]);
      } else if HasPrefix(line, "data:") {
        data := data + TrimSpace(line[5..]);
      }
      i, rest := i + 1, rest[1..];
    }
  }

  // ----- the stream as text -----

  function DropReturn(line: string): string {
    if line != "" && line[|line| - 1] == '\r' then line[..|line| - 1] else line
  }

  /** The lines of a text: cut at each newline, one carriage return dropped, a last unterminated line kept. */
  function Lines(text: string, line: string): seq<string>
    decreases |text|
  {
    if text == "" then (if line == "" then [] else [DropReturn(line)])
    else if text[0] == '\n' then [DropReturn(line)] + Lines(text[1..], "")
    else Lines(text[1..], line + [text[0]])
  }

  /** A line that a newline, with or without a carriage return before it, can end. */
  ghost predicate OneLine(line: string) {
    '\n' !in line && (line != "" ==> line[|line| - 1] != '\r')
  }

  function Ended(line: string, crlf: bool): string {
    line + (if crlf then "\r\n" else "\n")
  }

  function Text(lines: seq<string>, crlf: bool): string {
    if lines == [] then "" else Ended(lines[0], crlf) + Text(lines[1..], crlf)
  }

  lemma {:induction false} LinesOfOne(line: string, start: string, after: string)
    requires '\n' !in line
    ensures Lines(line + "\n" + after, start) == [DropReturn(start + line)] + Lines(after, "")
    decreases |line|
  {
    if line == "" {
      assert ("" + "\n" + after)[0] == '\n' && ("" + "\n" + after)[1..] == after;
      assert start + line == start;
    } else {
      assert (line + "\n" + after)[1..] == line[1..] + "\n" + after;
      LinesOfOne(line[1..], start + [line[0]], after);
      assert start + [line[0]] + line[1..] == start + line;
    }
  }

  lemma FirstLine(line: string, crlf: bool, more: string)
    requires OneLine(line)
    ensures Lines(Ended(line, crlf) + more, "") == [line] + Lines(more, "")
  {
    var body := if crlf then line + "\r" else line;
    assert Ended(line, crlf) + more == body + "\n" + more;
    LinesOfOne(body, "", more);
    assert "" + body == body;
    EndingDrops(line, crlf);
  }

  lemma EndingDrops(line: string, crlf: bool)
    requires OneLine(line)
    ensures DropReturn(if crlf then line + "\r" else line) == line
  {
    if crlf { assert (line + "\r")[..|line|] == line; }
  }

  /** Splitting what was joined gives the lines back, for either line ending, and then those of the rest. */
  lemma {:induction false} LinesOfText(lines: seq<string>, crlf: bool, after: string)
    requires forall i :: 0 <= i < |lines| ==> OneLine(lines[i])
    ensures Lines(Text(lines, crlf) + after, "") == lines + Lines(after, "")
  {
    if lines == [] {
      assert Text(lines, crlf) + after == after;
    } else {
      var more := Text(lines[1..], crlf) + after;
      FirstLine(lines[0], crlf, more);
      LinesOfText(lines[1..], crlf, after);
      Prepended(Ended(lines[0], crlf), Text(lines[1..], crlf), after);
      Prepended([lines[0]], lines[1..], Lines(after, ""));
      assert lines == [lines[0]] + lines[1..];
    }
  }

  lemma Prepended<T>(x: seq<T>, y: seq<T>, z: seq<T>)
    ensures (x + y) + z == x + (y + z)
  {
  }

  // ----- laws -----

  /** Comments and fields the client does not know. */
  ghost predicate Noise(line: string) {
    line != "" && !HasPrefix(line, "event:") && !HasPrefix(line, "data:")
  }

  ghost function WithoutNoise(lines: seq<string>): seq<string> {
    if lines == [] then [] else (if Noise(lines[0]) then [] else [lines[0]]) + WithoutNoise(lines[1..])
  }

  lemma {:induction false} NoiseIsIgnored(c: Codec, name: string, data: string, lines: seq<string>)
    ensures Parsed(c, name, data, lines) == Parsed(c, name, data, WithoutNoise(lines))
    decreases |lines|
  {
    if lines != [] {
      var line, rest := lines[0], lines[1..];
      assert ([line] + WithoutNoise(rest))[1..] == WithoutNoise(rest);
      if line == "" {
        NoiseIsIgnored(c, "", "", rest);
      } else if HasPrefix(line, "event:") {
        NoiseIsIgnored(c, TrimSpace(line[6..]), data, rest);
      } else if HasPrefix(line, "data:") {
        NoiseIsIgnored(c, name, data + TrimSpace(line[5..]), rest);
      } else {
        assert [] + WithoutNoise(rest) == WithoutNoise(rest);
        NoiseIsIgnored(c, name, data, rest);
      }
    }
  }

  /** At a blank line the stream can be cut: the parts parse on their own. */
  lemma {:induction false} BlankLineSeparates(c: Codec, name: string, data: string, xs: seq<string>, ys: seq<string>)
    requires xs != [] && xs[|xs| - 1] == ""
    ensures Parsed(c, name, data, xs + ys) == Parsed(c, name, data, xs) + Parsed(c, "", "", ys)
    decreases |xs|
  {
    var line := xs[0];
    assert (xs + ys)[0] == line && (xs + ys)[1..] == xs[1..] + ys;
    if |xs| == 1 {
      assert xs[1..] + ys == ys;
    } else if line == "" {
      BlankLineSeparates(c, "", "", xs[1..], ys);
    } else if HasPrefix(line, "event:") {
      BlankLineSeparates(c, TrimSpace(line[6..]), data, xs[1..], ys);
    } else if HasPrefix(line, "data:") {
      BlankLineSeparates(c, name, data + TrimSpace(line[5..]), xs[1..], ys);
    } else {
      BlankLineSeparates(c, name, data, xs[1..], ys);
    }
  }

  /** An event without its blank line is not delivered. */
  lemma {:induction false} UnfinishedTailYieldsNothing(c: Codec, name: string, data: string, lines: seq<string>)
    requires "" !in lines
    ensures Parsed(c, name, data, lines) == []
    decreases |lines|
  {
    if lines != [] {
      assert lines[0] in lines && forall l :: l in lines[1..] ==> l in lines;
      var line := lines[0];
      if HasPrefix(line, "event:") {
        UnfinishedTailYieldsNothing(c, TrimSpace(line[6..]), data, lines[1..]);
      } else if HasPrefix(line, "data:") {
        UnfinishedTailYieldsNothing(c, name, data + TrimSpace(line[5..]), lines[1..]);
      } else {
        UnfinishedTailYieldsNothing(c, name, data, lines[1..]);
      }
    }
  }

  /** The name that the last event field of a block gives, or the one from before. */
  function NameOf(block: seq<string>, name: string): string
    decreases |block|
  {
    if block == [] then name
    else
      var line := block[|block| - 1];
      if HasPrefix(line, "event:") then TrimSpace(line[6..]) else NameOf(block[..|block| - 1], name)
  }

  /** The data fields of a block, each trimmed, one after another. */
  function DataOf(block: seq<string>): string
    decreases |block|
  {
    if block == [] then ""
    else
      var line := block[|block| - 1];
      DataOf(block[..|block| - 1])
        + (if HasPrefix(line, "data:") then TrimSpace(line[5..]) else "")
  }

  lemma {:induction false} NameFromFirst(line: string, block: seq<string>, name: string)
    ensures NameOf([line] + block, name)
         == NameOf(block, if HasPrefix(line, "event:") then TrimSpace(line[6..]) else name)
    decreases |block|
  {
    var all := [line] + block;
    if block == [] {
      assert all[..0] == [];
    } else {
      assert all[..|all| - 1] == [line] + block[..|block| - 1];
      NameFromFirst(line, block[..|block| - 1], name);
    }
  }

  lemma {:induction false} DataFromFirst(line: string, block: seq<string>)
    ensures DataOf([line] + block) == DataOf([line]) + DataOf(block)
    decreases |block|
  {
    var all := [line] + block;
    if block == [] {
      assert all == [line] && DataOf([line]) + "" == DataOf([line]);
    } else {
      assert all[..|all| - 1] == [line] + block[..|block| - 1] && all[|all| - 1] == block[|block| - 1];
      DataFromFirst(line, block[..|block| - 1]);
    }
  }

  lemma {:induction false} BlockParses(c: Codec, name: string, data: string, block: seq<string>)
    requires "" !in block
    ensures Parsed(c, name, data, block + [""]) == Built(c, NameOf(block, name), data + DataOf(block))
    decreases |block|
  {
    if block == [] {
      assert block + [""] == [""] && [""][1..] == [];
      assert data + "" == data;
    } else {
      var line, rest := block[0], block[1..];
      assert block == [line] + rest && (block + [""])[1..] == rest + [""] && line in block;
      assert forall l :: l in rest ==> l in block;
      NameFromFirst(line, rest, name);
      DataFromFirst(line, rest);
      FieldIs(line);
      OneField(line);
      var next := if HasPrefix(line, "event:") then TrimSpace(line[6..]) else name;
      BlockParses(c, next, data + DataOf([line]), rest);
      Prepended(data, DataOf([line]), DataOf(rest));
      assert data + "" == data;
    }
  }

  lemma OneField(line: string)
    ensures HasPrefix(line, "data:") ==> !HasPrefix(line, "event:")
  {
    assert "data:"[0] == 'd' && "event:"[0] == 'e';
  }

  lemma FieldIs(line: string)
    ensures DataOf([line]) == if HasPrefix(line, "data:") then TrimSpace(line[5..]) else ""
  {
    assert [line][..0] == [];
  }

  /**
    What a block of lines delivers at its blank line: an envelope or a receipt whose data reads as one with an id, a
    ping, and nothing else.
   */
  lemma BlockDelivers(c: Codec, block: seq<string>)
    requires "" !in block
    ensures var events := Parsed(c, "", "", block + [""]);
      var name, data := NameOf(block, ""), DataOf(block);
      && |events| <= 1
      && (forall e :: Message(e) in events <==> name == "envelope" && c.readEnvelope(data) == Some(e) && e.id != "")
      && (forall r :: State(r) in events <==> name == "receipt" && c.readReceipt(data) == Some(r) && r.id != "")
      && (Ping in events <==> name == "ping")
  {
    BlockParses(c, "", "", block);
    assert "" + DataOf(block) == DataOf(block);
    assert "envelope"[0] == 'e' && "receipt"[0] == 'r' && "ping"[0] == 'p';
  }

  /** An event the server can send: its id is not empty. */
  ghost predicate Sendable(ev: Event) {
    match ev
    case Message(e) => e.id != ""
    case State(r) => r.id != ""
    case Ping => true
  }

  ghost function Printed(c: Codec, ev: Event): seq<string> {
    match ev
    case Message(e) => ["event: envelope", "data: " + c.writeEnvelope(e), ""]
    case State(r) => ["event: receipt", "data: " + c.writeReceipt(r), ""]
    case Ping => ["event: ping", "data: {}", ""]
  }

  ghost function AllPrinted(c: Codec, events: seq<Event>): seq<string> {
    if events == [] then [] else Printed(c, events[0]) + AllPrinted(c, events[1..])
  }

  lemma ThreeLines(c: Codec, name: string, data: string)
    requires Trimmed(name) && Trimmed(data)
    ensures Parsed(c, "", "", ["event: " + name, "data: " + data, ""]) == Built(c, name, data)
  {
    var lines := ["event: " + name, "data: " + data, ""];
    TrimmedIsFixed(name);
    TrimmedIsFixed(data);
    assert lines[0][6..] == " " + name && lines[1][5..] == " " + data;
    assert "" + data == data;
    assert lines[1..] == ["data: " + data, ""] && lines[1..][1..] == [""] && [""][1..] == [];
    assert Parsed(c, name, data, [""]) == Built(c, name, data);
    assert lines[1..][0] == "data: " + data && lines[1..][0][0] == 'd';
    assert Parsed(c, name, "", lines[1..]) == Parsed(c, name, data, [""]);
    assert lines[0][0] == 'e';
  }

  lemma PrintedParses(c: Codec, ev: Event)
    requires Lawful(c) && Sendable(ev)
    ensures Parsed(c, "", "", Printed(c, ev)) == [ev]
  {
    match ev
    case Message(e) =>
      ThreeLines(c, "envelope", c.writeEnvelope(e));
      assert "event: " + "envelope" == "event: envelope";
    case State(r) =>
      ThreeLines(c, "receipt", c.writeReceipt(r));
      assert "event: " + "receipt" == "event: receipt";
    case Ping =>
      ThreeLines(c, "ping", "{}");
      assert "event: " + "ping" == "event: ping" && "data: " + "{}" == "data: {}";
  }

  lemma {:induction false} AllPrintedParses(c: Codec, events: seq<Event>)
    requires Lawful(c) && forall i :: 0 <= i < |events| ==> Sendable(events[i])
    ensures Parsed(c, "", "", AllPrinted(c, events)) == events
  {
    if events != [] {
      PrintedParses(c, events[0]);
      AllPrintedParses(c, events[1..]);
      BlankLineSeparates(c, "", "", Printed(c, events[0]), AllPrinted(c, events[1..]));
    }
  }

  /** Printed events are delivered exactly, in order, whatever noise is mixed in and whatever is left unfinished. */
  lemma StreamRoundTrip(c: Codec, events: seq<Event>, lines: seq<string>, tail: seq<string>)
    requires Lawful(c) && forall i :: 0 <= i < |events| ==> Sendable(events[i])
    requires WithoutNoise(lines) == AllPrinted(c, events) && "" !in tail
    ensures Parsed(c, "", "", lines + tail) == events
  {
    NoiseIsIgnored(c, "", "", lines + tail);
    WithoutNoiseConcat(lines, tail);
    AllPrintedParses(c, events);
    WithoutNoiseKeepsTail(tail);
    if events == [] {
      assert AllPrinted(c, events) + WithoutNoise(tail) == WithoutNoise(tail);
    } else {
      EndsBlank(c, events);
      BlankLineSeparates(c, "", "", AllPrinted(c, events), WithoutNoise(tail));
    }
    UnfinishedTailYieldsNothing(c, "", "", WithoutNoise(tail));
  }

  lemma {:induction false} LineIsNoiseOrKept(lines: seq<string>, i: nat)
    requires i < |lines|
    ensures Noise(lines[i]) || lines[i] in WithoutNoise(lines)
  {
    if i > 0 { LineIsNoiseOrKept(lines[1..], i - 1); }
  }

  lemma PrefixedIsOneLine(field: string, value: string)
    requires field != "" && '\n' !in field && field[|field| - 1] != '\r' && Payload(value)
    ensures OneLine(field + value)
  {
    var line := field + value;
    if value != "" { assert line[|line| - 1] == value[|value| - 1]; }
  }

  lemma {:induction false} PrintedAreOneLine(c: Codec, events: seq<Event>)
    requires Lawful(c)
    ensures forall l :: l in AllPrinted(c, events) ==> OneLine(l)
  {
    if events != [] {
      match events[0] {
        case Message(e) => PrefixedIsOneLine("data: ", c.writeEnvelope(e));
        case State(r) => PrefixedIsOneLine("data: ", c.writeReceipt(r));
        case Ping =>
      }
      PrintedAreOneLine(c, events[1..]);
    }
  }

  /**
    The same for the bytes on the wire, with either line ending and any rest that completes no event: a stream cut
    anywhere after its last blank line loses nothing that was complete.
   */
  lemma WireRoundTrip(c: Codec, events: seq<Event>, lines: seq<string>, crlf: bool, rest: string)
    requires Lawful(c) && forall i :: 0 <= i < |events| ==> Sendable(events[i])
    requires WithoutNoise(lines) == AllPrinted(c, events)
    requires forall i :: 0 <= i < |lines| && Noise(lines[i]) ==> OneLine(lines[i])
    requires "" !in Lines(rest, "")
    ensures Parsed(c, "", "", Lines(Text(lines, crlf) + rest, "")) == events
  {
    PrintedAreOneLine(c, events);
    forall i | 0 <= i < |lines|
      ensures OneLine(lines[i])
    {
      LineIsNoiseOrKept(lines, i);
    }
    LinesOfText(lines, crlf, rest);
    StreamRoundTrip(c, events, lines, Lines(rest, ""));
  }

  lemma {:induction false} EndsBlank(c: Codec, events: seq<Event>)
    requires events != []
    ensures var p := AllPrinted(c, events); p != [] && p[|p| - 1] == ""
  {
    if |events| > 1 { EndsBlank(c, events[1..]); }
  }

  lemma {:induction false} WithoutNoiseConcat(xs: seq<string>, ys: seq<string>)
    ensures WithoutNoise(xs + ys) == WithoutNoise(xs) + WithoutNoise(ys)
  {
    if xs == [] {
      assert xs + ys == ys;
    } else {
      assert (xs + ys)[1..] == xs[1..] + ys;
      WithoutNoiseConcat(xs[1..], ys);
    }
  }

  lemma {:induction false} WithoutNoiseKeepsTail(lines: seq<string>)
    requires "" !in lines
    ensures "" !in WithoutNoise(lines)
  {
    if lines != [] {
      assert lines[0] in lines && forall l :: l in lines[1..] ==> l in lines;
      WithoutNoiseKeepsTail(lines[1..]);
    }
  }
}
