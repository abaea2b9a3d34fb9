/** Chat conversations: folding engine events and user actions, and what a server's repeats do to them. */
module ChatReplay {
  import opened Ascii
  import opened Spaces

  datatype Option<T> = None | Some(value: T)

  datatype Status = Sending | Sent | Queued | Read | Sealed | Open | Expired

  /** Times are seconds; `expiresAt` is the burn deadline, none until the message is read. */
  datatype Message = Message(
    id: string, self: bool, text: string, createdAt: int, armedAt: Option<int>, expiresAt: Option<int>,
    burnSeconds: int, mode: string, status: Status, revealed: bool, unauthenticated: bool)

  datatype Conv = Conv(fingerprint: string, verified: bool, unread: nat, lastActivity: int, msgs: seq<Message>)

  datatype Envelope = Envelope(
    peer: string, id: string, text: string, createdAt: Option<int>, burnSeconds: int, mode: string,
    authentic: bool, senderFingerprint: string)

  datatype Outcome = WasDelivered | WasRead | WasExpired

  /** What changes the records, with the time it happens.  `Mark` names the conversation the scan reaches first. */
  datatype Action =
    | Incoming(env: Envelope, now: int)
    | Mark(id: string, outcome: Outcome, where: string, now: int)
    | PeerKey(peer: string, fingerprint: string, verified: bool, now: int)
    | Outgoing(peer: string, id: string, text: string, burnSeconds: int, mode: string, now: int)
    | Reveal(peer: string, id: string, now: int)
    | SetVerified(peer: string, verified: bool)
    | OpenConversation(peer: string, now: int)
    | CloseConversation
    | Rebind

  /** `notes` lists the peers notified, oldest first. */
  datatype State = State(convs: map<string, Conv>, activePeer: string, notes: seq<string>)

  const EMPTY := State(map[], "", [])

  const LIVE_GRACE_SECONDS := 5
  const DEFAULT_BURN_SECONDS := 300

  function Key(peer: string): string {
    Lower(TrimSpace(peer))
  }

  function SameFingerprint(a: string, b: string): bool {
    Lower(TrimSpace(a)) == Lower(TrimSpace(b))
  }

  function BurnDuration(m: Message): (d: int)
    ensures d > 0
  {
    var secs := if m.mode == "live" then LIVE_GRACE_SECONDS else m.burnSeconds;
    if secs <= 0 then DEFAULT_BURN_SECONDS else secs
  }

  // ----- one action, on values -----

  predicate HasId(msgs: seq<Message>, id: string) {
    exists i :: 0 <= i < |msgs| && msgs[i].id == id
  }

  ghost predicate Received(msgs: seq<Message>, id: string) {
    exists i :: 0 <= i < |msgs| && msgs[i].id == id && !msgs[i].self
  }

  lemma ReceivedSnoc(msgs: seq<Message>, i: nat, id: string)
    requires i < |msgs|
    ensures Received(msgs[..i + 1], id) <==> Received(msgs[..i], id) || (msgs[i].id == id && !msgs[i].self)
  {
    assert msgs[..i + 1] == msgs[..i] + [msgs[i]];
    assert msgs[..i + 1][i] == msgs[i];
    assert forall j :: 0 <= j < i ==> msgs[..i + 1][j] == msgs[..i][j];
  }

  predicate Held(s: State, key: string, id: string) {
    key in s.convs && HasId(s.convs[key].msgs, id)
  }

  function ConvOf(convs: map<string, Conv>, key: string, now: int): Conv {
    if key in convs then convs[key] else Conv("", false, 0, now, [])
  }

  function Sealing(c: Conv, e: Envelope, now: int): Message {
    var impostor := c.verified && c.fingerprint != "" && !SameFingerprint(e.senderFingerprint, c.fingerprint);
    Message(e.id, false, e.text, if e.createdAt.Some? then e.createdAt.value else now, None, None,
            e.burnSeconds, e.mode, Sealed, false, !e.authentic || impostor)
  }

  function Arrived(s: State, e: Envelope, now: int): State {
    var key := Key(e.peer);
    if Held(s, key, e.id) then s
    else
      var c := ConvOf(s.convs, key, now);
      var background := s.activePeer != key;
      State(s.convs[key := c.(msgs := c.msgs + [Sealing(c, e, now)], lastActivity := now,
                              unread := if background then c.unread + 1 else c.unread)],
            s.activePeer, if background then s.notes + [key] else s.notes)
  }

  function Marked(m: Message, outcome: Outcome, now: int): Message {
    match outcome
    case WasDelivered => m.(status := if m.mode == "store" then Queued else Sent)
    case WasRead =>
      if m.expiresAt.None? then m.(status := Read, armedAt := Some(now), expiresAt := Some(now + BurnDuration(m)))
      else m.(status := Read)
    case WasExpired => m.(status := Expired)
  }

  /** Only the first message of that id is marked. */
  function MarkFirst(msgs: seq<Message>, id: string, outcome: Outcome, now: int): seq<Message> {
    if msgs == [] then []
    else if msgs[0].id == id then [Marked(msgs[0], outcome, now)] + msgs[1..]
    else [msgs[0]] + MarkFirst(msgs[1..], id, outcome, now)
  }

  function Revealed(m: Message, id: string, now: int): Message {
    if m.id == id && !m.self
    then m.(revealed := true, status := Open, armedAt := Some(now), expiresAt := Some(now + BurnDuration(m))) else m
  }

  function RevealAll(msgs: seq<Message>, id: string, now: int): seq<Message> {
    seq(|msgs|, i requires 0 <= i < |msgs| => Revealed(msgs[i], id, now))
  }

  function Step(s: State, a: Action): State {
    match a
    case Incoming(e, now) => Arrived(s, e, now)
    case Mark(id, outcome, where, now) =>
      if Held(s, where, id)
      then var c := s.convs[where];
           s.(convs := s.convs[where := c.(msgs := MarkFirst(c.msgs, id, outcome, now), lastActivity := now)])
      else s
    case PeerKey(peer, fingerprint, verified, now) =>
      var c := ConvOf(s.convs, Key(peer), now);
      s.(convs := s.convs[Key(peer) := c.(fingerprint := fingerprint, verified := verified)])
    case Outgoing(peer, id, text, burnSeconds, mode, now) =>
      var c := ConvOf(s.convs, Key(peer), now);
      var m := Message(id, true, text, now, None, None, burnSeconds, mode, Sending, false, false);
      s.(convs := s.convs[Key(peer) := c.(msgs := c.msgs + [m], lastActivity := now)])
    case Reveal(peer, id, now) =>
      if Key(peer) in s.convs
      then var c := s.convs[Key(peer)];
           s.(convs := s.convs[Key(peer) := c.(msgs := RevealAll(c.msgs, id, now))])
      else s
    case SetVerified(peer, verified) =>
      if Key(peer) in s.convs
      then s.(convs := s.convs[Key(peer) := s.convs[Key(peer)].(verified := verified)])
      else s
    case OpenConversation(peer, now) =>
      if Key(peer) == "" then s
      else
        var c := ConvOf(s.convs, Key(peer), now);
        s.(convs := s.convs[Key(peer) := c.(unread := 0)], activePeer := Key(peer))
    case CloseConversation => s.(activePeer := "")
    case Rebind => s.(convs := map[], activePeer := "")
  }

  function Run(s: State, run: seq<Action>): State
    decreases |run|
  {
    if run == [] then s else Run(Step(s, run[0]), run[1..])
  }

  // ----- the object the screens share -----

  class ChatState {
    var convs: map<string, Conv>
    var activePeer: string
    var notes: seq<string>

    ghost function Value(): State
      reads this
    {
      State(convs, activePeer, notes)
    }

    constructor ()
      ensures Value() == EMPTY
    {
      convs, activePeer, notes := map[], "", [];
    }

    /** Returns the record of a peer, created if absent. */
    method ConvRecord(key: string, now: int) returns (c: Conv)
      modifies this`convs
      ensures c == ConvOf(old(convs), key, now) && convs == old(convs)[key := c]
    {
      if key !in convs {
        convs := convs[key := Conv("", false, 0, now, [])];
      }
      c := convs[key];
    }

    method ApplyIncoming(e: Envelope, now: int)
      modifies this
      ensures Value() == Step(old(Value()), Incoming(e, now))
    {
      var key := Key(e.peer);
      var c := ConvRecord(key, now);
      var i := 0;
      while i < |c.msgs|
        invariant 0 <= i <= |c.msgs| && !HasId(c.msgs[..i], e.id)
        invariant convs == old(convs)[key := c] && activePeer == old(activePeer) && notes == old(notes)
      {
        if c.msgs[i].id == e.id {
          assert key in old(convs);
          return;
        }
        i := i + 1;
      }
      assert c.msgs[..i] == c.msgs;
      var background := activePeer != key;
      convs := convs[key := c.(msgs := c.msgs + [Sealing(c, e, now)], lastActivity := now,
                               unread := if background then c.unread + 1 else c.unread)];
      if background { notes := notes + [key]; }
    }

    /** Applies an outcome to the first message of that id; the order in which conversations are scanned is open. */
    method SetStatusByID(id: string, outcome: Outcome, now: int) returns (where: string)
      modifies this
      ensures Value() == Step(old(Value()), Mark(id, outcome, where, now))
      ensures (exists key :: Held(old(Value()), key, id)) ==> Held(old(Value()), where, id)
    {
      where := "";
      var left := convs.Keys;
      while left != {}
        invariant left <= convs.Keys && Value() == old(Value())
        invariant forall key :: Held(Value(), key, id) ==> key in left
        decreases |left|
      {
        var key :| key in left;
        where := key;
        if HasId(convs[key].msgs, id) {
          var c := convs[key];
          var msgs := MarkFirst(c.msgs, id, outcome, now);
          convs := convs[key := c.(msgs := msgs, lastActivity := now)];
          return;
        }
        left := left - {key};
      }
    }

    method RevealMessage(peer: string, id: string, now: int) returns (found: bool)
      modifies this
      ensures Value() == Step(old(Value()), Reveal(peer, id, now))
      ensures found <==> Key(peer) in old(convs) && Received(old(convs)[Key(peer)].msgs, id)
    {
      found := false;
      var key := Key(peer);
      if key in convs {
        var c := convs[key];
        var msgs := c.msgs;
        var i := 0;
        while i < |msgs|
          invariant 0 <= i <= |msgs| == |c.msgs|
          invariant forall j :: 0 <= j < |msgs| ==> msgs[j] == if j < i then Revealed(c.msgs[j], id, now) else c.msgs[j]
          invariant found <==> Received(c.msgs[..i], id)
          invariant Value() == old(Value())
        {
          ReceivedSnoc(c.msgs, i, id);
          if msgs[i].id == id && !msgs[i].self {
            msgs := msgs[i := Revealed(msgs[i], id, now)];
            found := true;
          }
          i := i + 1;
        }
        assert msgs == RevealAll(c.msgs, id, now) && c.msgs[..i] == c.msgs;
        convs := convs[key := c.(msgs := msgs)];
      }
    }

    method OpenRoom(peer: string, now: int) returns (needKey: bool)
      modifies this
      ensures Value() == Step(old(Value()), OpenConversation(peer, now))
      ensures needKey ==> Key(peer) in convs && convs[Key(peer)].fingerprint == ""
    {
      var key := Key(peer);
      if key == "" { return false; }
      var c := ConvRecord(key, now);
      convs := convs[key := c.(unread := 0)];
      activePeer := key;
      needKey := c.fingerprint == "";
    }

    method CloseRoom()
      modifies this
      ensures Value() == Step(old(Value()), CloseConversation)
    {
      activePeer := "";
    }
  }

  // ----- repeats -----

  /** What a message is, apart from its progress. */
  ghost predicate SameMessage(m: Message, n: Message) {
    m.id == n.id && m.self == n.self && m.text == n.text && m.unauthenticated == n.unauthenticated
  }

  lemma {:induction false} MarkKeepsIds(msgs: seq<Message>, id: string, outcome: Outcome, now: int)
    ensures var r := MarkFirst(msgs, id, outcome, now);
      |r| == |msgs| && forall i :: 0 <= i < |msgs| ==> SameMessage(r[i], msgs[i])
  {
    if msgs != [] { MarkKeepsIds(msgs[1..], id, outcome, now); }
  }

  /** An outcome marks the first message of its id and no other. */
  lemma {:induction false} MarkFirstIs(msgs: seq<Message>, id: string, outcome: Outcome, now: int, i: nat)
    requires i < |msgs| && msgs[i].id == id && forall j :: 0 <= j < i ==> msgs[j].id != id
    ensures MarkFirst(msgs, id, outcome, now) == msgs[i := Marked(msgs[i], outcome, now)]
    decreases |msgs|
  {
    if i > 0 { MarkFirstIs(msgs[1..], id, outcome, now, i - 1); }
  }

  /** What an outcome makes of a message; a deadline is set by the first reading only. */
  lemma MarkedIs(m: Message, outcome: Outcome, now: int)
    ensures var n := Marked(m, outcome, now);
      && (outcome.WasDelivered? ==> n.status == if m.mode == "store" then Queued else Sent)
      && (outcome.WasRead? ==> n.status == Read) && (outcome.WasExpired? ==> n.status == Expired)
      && SameMessage(n, m) && n.revealed == m.revealed
      && n.expiresAt == if outcome.WasRead? && m.expiresAt.None? then Some(now + ReadingTime(m)) else m.expiresAt
  {
  }

  lemma AppendKeepsIds(msgs: seq<Message>, m: Message, id: string)
    ensures HasId(msgs + [m], id) <==> HasId(msgs, id) || m.id == id
  {
    if HasId(msgs, id) {
      var i :| 0 <= i < |msgs| && msgs[i].id == id;
      assert (msgs + [m])[i].id == id;
    }
    assert (msgs + [m])[|msgs|] == m;
  }

  /** The messages an action brings in: the pair of conversation and id. */
  ghost predicate Brings(a: Action, key: string, id: string) {
    || (a.Incoming? && Key(a.env.peer) == key && a.env.id == id)
    || (a.Outgoing? && Key(a.peer) == key && a.id == id)
  }

  /** A message is held exactly when it was held or is brought in; only a rebind forgets. */
  lemma HeldAfterStep(s: State, a: Action, key: string, id: string)
    ensures Held(Step(s, a), key, id) <==> !a.Rebind? && (Held(s, key, id) || Brings(a, key, id))
  {
    match a
    case Incoming(e, now) =>
      var c := ConvOf(s.convs, Key(e.peer), now);
      AppendKeepsIds(c.msgs, Sealing(c, e, now), id);
    case Outgoing(peer, id', text, burnSeconds, mode, now) =>
      var c := ConvOf(s.convs, Key(peer), now);
      AppendKeepsIds(c.msgs, Message(id', true, text, now, None, None, burnSeconds, mode, Sending, false, false), id);
    case Mark(id', outcome, where, now) =>
      if Held(s, where, id') { MarkKeepsIds(s.convs[where].msgs, id', outcome, now); }
    case Reveal(peer, id', now) =>
      if Key(peer) in s.convs {
        var msgs := s.convs[Key(peer)].msgs;
        assert forall i :: 0 <= i < |msgs| ==> RevealAll(msgs, id', now)[i].id == msgs[i].id;
      }
    case _ =>
  }

  /** The run without the envelopes that repeat one already received since the last rebind. */
  ghost function Deduped(run: seq<Action>, seen: set<(string, string)>): seq<Action>
    decreases |run|
  {
    if run == [] then []
    else if run[0].Incoming? then
      var p := (Key(run[0].env.peer), run[0].env.id);
      (if p in seen then [] else [run[0]]) + Deduped(run[1..], seen + {p})
    else [run[0]] + Deduped(run[1..], if run[0].Rebind? then {} else seen)
  }

  ghost predicate AllHeld(s: State, seen: set<(string, string)>) {
    forall key, id :: (key, id) in seen ==> Held(s, key, id)
  }

  /**
    Repeats anywhere in a run, however many, change nothing: not the messages or their order, not the unread counts,
    not the notifications, not the activity times.
   */
  lemma {:induction false} RepeatsChangeNothing(s: State, run: seq<Action>, seen: set<(string, string)>)
    requires AllHeld(s, seen)
    ensures Run(s, run) == Run(s, Deduped(run, seen))
    decreases |run|
  {
    if run != [] {
      var a, s' := run[0], Step(s, run[0]);
      forall key, id | Held(s, key, id) && !a.Rebind?
        ensures Held(s', key, id)
      {
        HeldAfterStep(s, a, key, id);
      }
      if a.Incoming? {
        var p := (Key(a.env.peer), a.env.id);
        HeldAfterStep(s, a, p.0, p.1);
        RepeatsChangeNothing(s', run[1..], seen + {p});
        if p in seen {
          assert s' == s && [] + Deduped(run[1..], seen + {p}) == Deduped(run[1..], seen + {p});
        } else {
          assert ([a] + Deduped(run[1..], seen + {p}))[1..] == Deduped(run[1..], seen + {p});
        }
      } else {
        var seen' := if a.Rebind? then {} else seen;
        RepeatsChangeNothing(s', run[1..], seen');
        assert ([a] + Deduped(run[1..], seen'))[1..] == Deduped(run[1..], seen');
      }
    }
  }

  /** Two runs that differ by repeats only end alike, from any state. */
  lemma RunsUpToRepeatsAgree(s: State, run: seq<Action>, other: seq<Action>)
    requires Deduped(run, {}) == Deduped(other, {})
    ensures Run(s, run) == Run(s, other)
  {
    RepeatsChangeNothing(s, run, {});
    RepeatsChangeNothing(s, other, {});
  }

  // ----- what is shown as authentic -----

  /** The envelope is validly signed, and by the verified key if the user verified the peer out of band. */
  ghost predicate Trusted(s: State, e: Envelope) {
    e.authentic && (Key(e.peer) in s.convs ==>
      var c := s.convs[Key(e.peer)];
      c.verified && c.fingerprint != "" ==> SameFingerprint(e.senderFingerprint, c.fingerprint))
  }

  /** A message of the new state was there before in the same place, or has just been sent or received. */
  lemma MessageOrigin(s: State, a: Action, key: string, i: nat)
    requires key in Step(s, a).convs && i < |Step(s, a).convs[key].msgs|
    ensures var m := Step(s, a).convs[key].msgs[i];
      || (key in s.convs && i < |s.convs[key].msgs| && SameMessage(m, s.convs[key].msgs[i]))
      || (a.Outgoing? && m.self)
      || (a.Incoming? && Key(a.env.peer) == key && m.id == a.env.id && m.text == a.env.text && !m.self
          && (m.unauthenticated <==> !Trusted(s, a.env)))
  {
    if a.Mark? && Held(s, a.where, a.id) { MarkKeepsIds(s.convs[a.where].msgs, a.id, a.outcome, a.now); }
  }

  /**
    Over every run, a received message shown without a warning came in an envelope that was validly signed, by the
    verified key if the conversation was verified when it arrived; one shown with a warning did not.
   */
  lemma {:induction false} WarningMeansUntrusted(run: seq<Action>, key: string, i: nat) returns (j: nat)
    requires var s := Run(EMPTY, run); key in s.convs && i < |s.convs[key].msgs| && !s.convs[key].msgs[i].self
    ensures j < |run| && run[j].Incoming? && Key(run[j].env.peer) == key
    ensures var m := Run(EMPTY, run).convs[key].msgs[i];
      && m.id == run[j].env.id && m.text == run[j].env.text
      && (m.unauthenticated <==> !Trusted(Run(EMPTY, run[..j]), run[j].env))
    decreases |run|
  {
    var init, a := run[..|run| - 1], run[|run| - 1];
    assert run == init + [a];
    RunSnoc(EMPTY, init, a);
    var s := Run(EMPTY, init);
    MessageOrigin(s, a, key, i);
    var m := Run(EMPTY, run).convs[key].msgs[i];
    if key in s.convs && i < |s.convs[key].msgs| && SameMessage(m, s.convs[key].msgs[i]) {
      j := WarningMeansUntrusted(init, key, i);
      assert run[..j] == init[..j];
    } else {
      j := |init|;
      assert run[..j] == init;
    }
  }

  // ----- sealed until revealed -----

  ghost predicate ReceivedIn(s: State, key: string, id: string) {
    key in s.convs && Received(s.convs[key].msgs, id)
  }

  ghost function NextReveal(s: State, a: Action, key: string, id: string, was: Option<int>): Option<int> {
    if a.Rebind? then None
    else if a.Reveal? && Key(a.peer) == key && a.id == id && ReceivedIn(s, key, id) then Some(a.now)
    else was
  }

  /** When a received message was last revealed, since it arrived. */
  ghost function LastReveal(run: seq<Action>, key: string, id: string): Option<int>
    decreases |run|
  {
    if run == [] then None
    else
      var init := run[..|run| - 1];
      NextReveal(Run(EMPTY, init), run[|run| - 1], key, id, LastReveal(init, key, id))
  }

  /** How long a message may be read: 5 seconds live, else the sender's window, else five minutes. */
  function ReadingTime(m: Message): int {
    if m.mode == "live" then 5 else if m.burnSeconds > 0 then m.burnSeconds else 300
  }

  /** The message's progress as its reveal says; without one it may only have been marked. */
  ghost predicate ShownBy(m: Message, when: Option<int>) {
    && (m.revealed <==> when.Some?)
    && (when.Some? ==> m.expiresAt == Some(when.value + ReadingTime(m)))
  }

  lemma {:induction false} MarkKeepsShown(msgs: seq<Message>, id: string, outcome: Outcome, now: int, i: nat,
                                          when: Option<int>)
    requires i < |msgs| && ShownBy(msgs[i], when)
    ensures |MarkFirst(msgs, id, outcome, now)| == |msgs| && ShownBy(MarkFirst(msgs, id, outcome, now)[i], when)
  {
    MarkKeepsIds(msgs, id, outcome, now);
    if msgs[0].id != id && i > 0 { MarkKeepsShown(msgs[1..], id, outcome, now, i - 1, when); }
  }

  /** Once revealed a message has been received, and it stays received until a rebind. */
  lemma {:induction false} RevealedIsReceived(run: seq<Action>, key: string, id: string)
    requires LastReveal(run, key, id).Some?
    ensures ReceivedIn(Run(EMPTY, run), key, id)
    decreases |run|
  {
    var init, a := run[..|run| - 1], run[|run| - 1];
    assert run == init + [a];
    RunSnoc(EMPTY, init, a);
    if !ReceivedIn(Run(EMPTY, init), key, id) { RevealedIsReceived(init, key, id); }
    ReceivedStays(Run(EMPTY, init), a, key, id);
  }

  lemma ReceivedStays(s: State, a: Action, key: string, id: string)
    requires ReceivedIn(s, key, id) && !a.Rebind?
    ensures ReceivedIn(Step(s, a), key, id)
  {
    var i :| 0 <= i < |s.convs[key].msgs| && s.convs[key].msgs[i].id == id && !s.convs[key].msgs[i].self;
    if a.Mark? && Held(s, a.where, a.id) { MarkKeepsIds(s.convs[a.where].msgs, a.id, a.outcome, a.now); }
    assert Step(s, a).convs[key].msgs[i].id == id && !Step(s, a).convs[key].msgs[i].self;
  }

  ghost predicate ShownIn(s: State, key: string, i: nat, when: Option<int>) {
    key in s.convs && i < |s.convs[key].msgs| && !s.convs[key].msgs[i].self ==> ShownBy(s.convs[key].msgs[i], when)
  }

  /** One step: a message that was there goes on as it was, or is revealed; a new one is sealed. */
  lemma ShownStep(s: State, a: Action, key: string, i: nat, was: Option<int>)
    requires key in Step(s, a).convs && i < |Step(s, a).convs[key].msgs| && !Step(s, a).convs[key].msgs[i].self
    requires ShownIn(s, key, i, was) && (ReceivedIn(s, key, Step(s, a).convs[key].msgs[i].id) || was.None?)
    ensures ShownBy(Step(s, a).convs[key].msgs[i], NextReveal(s, a, key, Step(s, a).convs[key].msgs[i].id, was))
  {
    if a.Mark? && Held(s, a.where, a.id) {
      MarkKeepsIds(s.convs[a.where].msgs, a.id, a.outcome, a.now);
      if a.where == key { MarkKeepsShown(s.convs[key].msgs, a.id, a.outcome, a.now, i, was); }
    } else if a.Reveal? && key == Key(a.peer) {
      assert s.convs[key].msgs[i].id == a.id ==> ReceivedIn(s, key, a.id);
    } else if a.Incoming? && key == Key(a.env.peer) {
      assert ReceivedIn(s, key, a.env.id) ==> Held(s, key, a.env.id);
    }
  }

  /**
    Over every run a received message is open exactly if the user has revealed it since it arrived, and must then be
    gone its reading time after it was last revealed, whatever is reported of it meanwhile.
   */
  lemma {:induction false} OpenIffRevealed(run: seq<Action>, key: string, i: nat)
    requires var s := Run(EMPTY, run); key in s.convs && i < |s.convs[key].msgs| && !s.convs[key].msgs[i].self
    ensures var m := Run(EMPTY, run).convs[key].msgs[i]; ShownBy(m, LastReveal(run, key, m.id))
    decreases |run|
  {
    var init, a := run[..|run| - 1], run[|run| - 1];
    assert run == init + [a];
    RunSnoc(EMPTY, init, a);
    var s := Run(EMPTY, init);
    var m := Run(EMPTY, run).convs[key].msgs[i];
    MessageOrigin(s, a, key, i);
    if key in s.convs && i < |s.convs[key].msgs| && !s.convs[key].msgs[i].self { OpenIffRevealed(init, key, i); }
    if LastReveal(init, key, m.id).Some? { RevealedIsReceived(init, key, m.id); }
    ShownStep(s, a, key, i, LastReveal(init, key, m.id));
  }

  // ----- what the counters mean -----

  /** The pairs brought in since the last rebind. */
  ghost predicate Known(run: seq<Action>, key: string, id: string) {
    exists i :: 0 <= i < |run| && Brings(run[i], key, id) && forall j :: i <= j < |run| ==> !run[j].Rebind?
  }

  /** The conversation open at the end of a run. */
  ghost function ActiveAfter(run: seq<Action>): string {
    if run == [] then ""
    else match run[|run| - 1]
      case OpenConversation(peer, _) => if Key(peer) == "" then ActiveAfter(run[..|run| - 1]) else Key(peer)
      case CloseConversation => ""
      case Rebind => ""
      case _ => ActiveAfter(run[..|run| - 1])
  }

  /** Step i is the first arrival of a message, in a conversation that was not open. */
  ghost predicate ArrivesUnseen(run: seq<Action>, key: string, i: nat) {
    && i < |run| && run[i].Incoming? && Key(run[i].env.peer) == key
    && !Known(run[..i], key, run[i].env.id) && ActiveAfter(run[..i]) != key
  }

  ghost predicate Clears(a: Action, key: string) {
    a.Rebind? || (a.OpenConversation? && key != "" && Key(a.peer) == key)
  }

  ghost predicate Pending(run: seq<Action>, key: string, i: nat) {
    ArrivesUnseen(run, key, i) && forall j :: i < j < |run| ==> !Clears(run[j], key)
  }

  ghost function PendingSteps(run: seq<Action>, key: string): set<nat> {
    set i: nat | i < |run| && Pending(run, key, i)
  }

  ghost function UnseenSteps(run: seq<Action>, key: string): set<nat> {
    set i: nat | i < |run| && ArrivesUnseen(run, key, i)
  }

  ghost function Unread(s: State, key: string): nat {
    if key in s.convs then s.convs[key].unread else 0
  }

  lemma {:induction false} RunSnoc(s: State, run: seq<Action>, a: Action)
    ensures Run(s, run + [a]) == Step(Run(s, run), a)
    decreases |run|
  {
    if run == [] {
      assert ([] + [a])[1..] == [];
    } else {
      assert (run + [a])[1..] == run[1..] + [a];
      RunSnoc(Step(s, run[0]), run[1..], a);
    }
  }

  lemma KnownSnoc(run: seq<Action>, a: Action, key: string, id: string)
    ensures Known(run + [a], key, id) <==> !a.Rebind? && (Known(run, key, id) || Brings(a, key, id))
  {
    var all := run + [a];
    if Known(all, key, id) {
      var i :| 0 <= i < |all| && Brings(all[i], key, id) && forall j :: i <= j < |all| ==> !all[j].Rebind?;
      assert !all[|run|].Rebind?;
      if i < |run| {
        assert Brings(run[i], key, id) && forall j :: i <= j < |run| ==> run[j] == all[j];
      }
    }
    if !a.Rebind? && Known(run, key, id) {
      var i :| 0 <= i < |run| && Brings(run[i], key, id) && forall j :: i <= j < |run| ==> !run[j].Rebind?;
      assert Brings(all[i], key, id);
    }
    if !a.Rebind? && Brings(a, key, id) { assert Brings(all[|run|], key, id); }
  }

  /** The state remembers exactly the messages brought in and the open conversation. */
  lemma {:induction false} StateIsHistory(run: seq<Action>, key: string, id: string)
    ensures Held(Run(EMPTY, run), key, id) <==> Known(run, key, id)
    ensures Run(EMPTY, run).activePeer == ActiveAfter(run)
    decreases |run|
  {
    if run != [] {
      var init, a := run[..|run| - 1], run[|run| - 1];
      assert run == init + [a];
      StateIsHistory(init, key, id);
      RunSnoc(EMPTY, init, a);
      KnownSnoc(init, a, key, id);
      HeldAfterStep(Run(EMPTY, init), a, key, id);
    }
  }

  lemma StepsSnoc(run: seq<Action>, a: Action, key: string)
    ensures var last: set<nat> := if ArrivesUnseen(run + [a], key, |run|) then {|run|} else {};
      && UnseenSteps(run + [a], key) == UnseenSteps(run, key) + last
      && PendingSteps(run + [a], key) == (if Clears(a, key) then {} else PendingSteps(run, key)) + last
  {
    var all := run + [a];
    forall i: nat | i < |run|
      ensures ArrivesUnseen(all, key, i) <==> ArrivesUnseen(run, key, i)
      ensures Pending(all, key, i) <==> !Clears(a, key) && Pending(run, key, i)
    {
      assert all[..i] == run[..i] && all[i] == run[i] && all[|run|] == a;
      assert forall j :: i < j < |run| ==> all[j] == run[j];
    }
  }

  lemma UnreadAfterStep(s: State, a: Action, key: string)
    ensures Unread(Step(s, a), key) ==
      if Clears(a, key) then 0
      else if a.Incoming? && Key(a.env.peer) == key && !Held(s, key, a.env.id) && s.activePeer != key
      then Unread(s, key) + 1 else Unread(s, key)
    ensures multiset(Step(s, a).notes)[key] == multiset(s.notes)[key] +
      if a.Incoming? && Key(a.env.peer) == key && !Held(s, key, a.env.id) && s.activePeer != key then 1 else 0
  {
  }

  /**
    After any run the badge of a conversation counts exactly the distinct messages that arrived in the background
    since it was last opened, and its notifications are exactly the background arrivals, opened since or not.
   */
  lemma {:induction false} BadgeCountsBackgroundArrivals(run: seq<Action>, key: string)
    ensures Unread(Run(EMPTY, run), key) == |PendingSteps(run, key)|
    ensures multiset(Run(EMPTY, run).notes)[key] == |UnseenSteps(run, key)|
    decreases |run|
  {
    if run != [] {
      var init, a := run[..|run| - 1], run[|run| - 1];
      var n := |init|;
      assert run == init + [a] && run[..n] == init && run[n] == a;
      var s := Run(EMPTY, init);
      BadgeCountsBackgroundArrivals(init, key);
      RunSnoc(EMPTY, init, a);
      UnreadAfterStep(s, a, key);
      StepsSnoc(init, a, key);
      LastArrivesUnseenIff(init, a, key);
      assert n !in PendingSteps(init, key) && n !in UnseenSteps(init, key);
    }
  }

  lemma LastArrivesUnseenIff(init: seq<Action>, a: Action, key: string)
    ensures var s := Run(EMPTY, init);
      ArrivesUnseen(init + [a], key, |init|) <==>
        a.Incoming? && Key(a.env.peer) == key && !Held(s, key, a.env.id) && s.activePeer != key
  {
    var run := init + [a];
    assert run[..|init|] == init && run[|init|] == a;
    StateIsHistory(init, key, if a.Incoming? then a.env.id else "");
  }

  /** The arrivals a badge counts carry different ids. */
  lemma PendingAreDistinct(run: seq<Action>, key: string, i: nat, j: nat)
    requires Pending(run, key, i) && Pending(run, key, j) && i < j
    ensures run[i].env.id != run[j].env.id
  {
    var before := run[..j];
    assert before[i] == run[i];
    assert forall k :: i <= k < j ==> before[k] == run[k] && (i < k ==> !Clears(run[k], key));
    assert Brings(before[i], key, run[i].env.id);
    assert Known(before, key, run[i].env.id);
  }
}
