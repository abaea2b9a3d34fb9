/** The provisioning service: one-time tokens, signed codes, and the chain from a minted code to the credentials. */
module Provision {
  import opened SetupCode
  import opened Spaces

  /** Times are nanoseconds. */
  datatype Pending = Pending(email: string, expires: int)

  type Tokens = map<string, Pending>

  /**
    What the service's lock orders.  `now` is the time a request read before it took the lock, so the times of
    successive actions may decrease.
   */
  datatype Action =
    | Mint(token: string, email: string, expires: int, now: int)
    | Exchange(token: string, username: string, now: int)

  // ----- the token table, on values -----

  function Pruned(tokens: Tokens, now: int): Tokens {
    map t | t in tokens && now <= tokens[t].expires :: tokens[t]
  }

  function Step(tokens: Tokens, a: Action): Tokens {
    match a
    case Mint(token, email, expires, now) => Pruned(tokens, now)[token := Pending(email, expires)]
    case Exchange(token, _, now) => Pruned(tokens, now) - {token}
  }

  function After(run: seq<Action>): Tokens {
    if run == [] then map[] else Step(After(run[..|run| - 1]), run[|run| - 1])
  }

  /** The mailbox whose credentials an exchange hands out. */
  function Granted(lib: Lib, tokens: Tokens, token: string, username: string, now: int): Option<string> {
    if token in tokens && now <= tokens[token].expires && lib.fold(tokens[token].email) == lib.fold(username)
    then Some(tokens[token].email) else None
  }

  // ----- the service -----

  datatype Config = Config(server: string, imapPort: int, smtpPort: int, ttl: int, users: map<string, string>, key: int)

  function LocalPart(email: string): string {
    if email == "" || email[0] == '@' then "" else [email[0]] + LocalPart(email[1..])
  }

  function CodeFields(lib: Lib, cfg: Config, token: string, email: string, endpoint: string, expires: int): Fields {
    Fields(1, cfg.server, cfg.imapPort, "tls", cfg.smtpPort, "starttls", email, LocalPart(email), token, endpoint,
           lib.publicKey(cfg.key), Unix(expires))
  }

  function CodePayload(lib: Lib, cfg: Config, token: string, email: string, endpoint: string, expires: int): Payload {
    var f := CodeFields(lib, cfg, token, email, endpoint, expires);
    Payload(f, lib.sign(cfg.key, f))
  }

  class Service {
    const lib: Lib
    const cfg: Config
    var tokens: Tokens

    constructor (lib: Lib, cfg: Config)
      ensures this.lib == lib && this.cfg == cfg && tokens == After([])
    {
      this.lib, this.cfg, tokens := lib, cfg, map[];
    }

    /** Drops the tokens past their window, one by one. */
    method PruneExpired(now: int)
      modifies this`tokens
      ensures tokens == Pruned(old(tokens), now)
    {
      var left := tokens.Keys;
      while left != {}
        invariant left <= tokens.Keys <= old(tokens).Keys
        invariant forall t :: t in old(tokens) && t !in left ==> (t in tokens <==> now <= old(tokens)[t].expires)
        invariant forall t :: t in tokens ==> tokens[t] == old(tokens)[t]
        decreases |left|
      {
        var t :| t in left;
        if now > tokens[t].expires { tokens := tokens - {t}; }
        left := left - {t};
      }
    }

    /** Mints a code for a mailbox: `issued` is when its window starts, `now` when the table is locked. */
    method BuildPayload(token: string, email: string, endpoint: string, issued: int, now: int) returns (code: string)
      modifies this`tokens
      ensures var expires := issued + cfg.ttl * NANOS;
        && tokens == Step(old(tokens), Mint(token, email, expires, now))
        && code == lib.encode(CodePayload(lib, cfg, token, email, endpoint, expires))
    {
      var expires := issued + cfg.ttl * NANOS;
      PruneExpired(now);
      tokens := tokens[token := Pending(email, expires)];
      code := lib.encode(CodePayload(lib, cfg, token, email, endpoint, expires));
    }

    /** Redeems a token; looking it up uses it up, whatever the answer. */
    method HandleExchange(token: string, username: string, now: int) returns (password: Option<string>)
      modifies this`tokens
      ensures tokens == Step(old(tokens), Exchange(token, username, now))
      ensures var g := Granted(lib, old(tokens), token, username, now);
        password == if g.None? then None else Some(if g.value in cfg.users then cfg.users[g.value] else "")
    {
      PruneExpired(now);
      if token !in tokens { return None; }
      var pt := tokens[token];
      tokens := tokens - {token};
      if now > pt.expires || lib.fold(pt.email) != lib.fold(username) { return None; }
      password := Some(if pt.email in cfg.users then cfg.users[pt.email] else "");
    }
  }

  // ----- what a run leaves in the table -----

  /** Step i minted the token, nothing has used it since, and no request has found it expired. */
  ghost predicate StandingMint(run: seq<Action>, i: nat, token: string) {
    && i < |run| && run[i].Mint? && run[i].token == token
    && forall j :: i < j < |run| ==> run[j].token != token && run[j].now <= run[i].expires
  }

  lemma StandingSnoc(run: seq<Action>, a: Action, i: nat, token: string)
    requires i < |run|
    ensures StandingMint(run + [a], i, token)
      <==> StandingMint(run, i, token) && a.token != token && a.now <= run[i].expires
  {
    var all := run + [a];
    assert all[i] == run[i] && all[|run|] == a;
    assert forall j :: i < j < |run| ==> all[j] == run[j];
  }

  lemma {:induction false} HeldMeansMinted(run: seq<Action>, token: string) returns (i: nat)
    requires token in After(run)
    ensures StandingMint(run, i, token) && After(run)[token] == Pending(run[i].email, run[i].expires)
  {
    var init, a := run[..|run| - 1], run[|run| - 1];
    assert run == init + [a];
    if a.Mint? && a.token == token { return |init|; }
    i := HeldMeansMinted(init, token);
    StandingSnoc(init, a, i, token);
  }

  lemma {:induction false} MintedMeansHeld(run: seq<Action>, i: nat, token: string)
    requires StandingMint(run, i, token)
    ensures token in After(run) && After(run)[token] == Pending(run[i].email, run[i].expires)
    decreases |run|
  {
    var init, a := run[..|run| - 1], run[|run| - 1];
    assert run == init + [a];
    if i < |init| {
      StandingSnoc(init, a, i, token);
      MintedMeansHeld(init, i, token);
    }
  }

  /** An exchange is answered exactly for a token that stands, within its window, to the mailbox it was minted for. */
  lemma GrantedIff(lib: Lib, run: seq<Action>, token: string, username: string, now: int, email: string)
    ensures Granted(lib, After(run), token, username, now) == Some(email)
      <==> exists i: nat :: StandingMint(run, i, token) && run[i].email == email && now <= run[i].expires
                            && lib.fold(email) == lib.fold(username)
  {
    if token in After(run) { var i := HeldMeansMinted(run, token); }
    forall i: nat | StandingMint(run, i, token)
      ensures token in After(run) && After(run)[token] == Pending(run[i].email, run[i].expires)
    {
      MintedMeansHeld(run, i, token);
    }
  }

  ghost predicate GrantsAt(lib: Lib, run: seq<Action>, i: nat, token: string) {
    && i < |run| && run[i].Exchange? && run[i].token == token
    && Granted(lib, After(run[..i]), token, run[i].username, run[i].now).Some?
  }

  /** No token is drawn twice. */
  ghost predicate FreshTokens(run: seq<Action>) {
    forall i, j :: 0 <= i < j < |run| && run[i].Mint? && run[j].Mint? ==> run[i].token != run[j].token
  }

  ghost predicate MintedFor(lib: Lib, a: Action, token: string, username: string) {
    a.Mint? && a.token == token && lib.fold(a.email) == lib.fold(username)
  }

  /** Over every run a token yields credentials at most once, and only to the mailbox it was minted for. */
  lemma EachTokenPaysOnce(lib: Lib, run: seq<Action>, i: nat, j: nat, token: string)
    requires FreshTokens(run) && GrantsAt(lib, run, i, token) && GrantsAt(lib, run, j, token)
    ensures i == j
    ensures exists m: nat :: m < i && MintedFor(lib, run[m], token, run[i].username)
  {
    var m := HeldMeansMinted(run[..i], token);
    var k := HeldMeansMinted(run[..j], token);
    assert run[m] == run[..i][m] && run[k] == run[..j][k];
    assert m == k;
  }

  // ----- from the code to the credentials -----

  /** The fields of a minted code, one by one; the display name is the mailbox name up to its first '@'. */
  ghost predicate IsMinted(lib: Lib, f: Fields, cfg: Config, token: string, email: string, endpoint: string,
                           expires: int)
  {
    && f.v == 1 && f.server == cfg.server
    && f.imapPort == cfg.imapPort && f.imapTLS == "tls" && f.smtpPort == cfg.smtpPort && f.smtpTLS == "starttls"
    && f.username == email && f.token == token && f.endpoint == endpoint
    && f.pubkey == lib.publicKey(cfg.key) && f.expiresAt == expires / 1_000_000_000
    && f.displayName <= email && '@' !in f.displayName
    && (|f.displayName| < |email| ==> email[|f.displayName|] == '@')
  }

  lemma {:induction false} LocalPartMeaning(email: string)
    ensures var r := LocalPart(email);
      r <= email && '@' !in r && (|r| < |email| ==> email[|r|] == '@')
  {
    if email != "" && email[0] != '@' {
      LocalPartMeaning(email[1..]);
      assert email == [email[0]] + email[1..];
    }
  }

  /** A minted code is accepted, with every field as minted, exactly if its fields are trustworthy and it is in time. */
  lemma MintedCodeAcceptedIff(lib: Lib, cfg: Config, token: string, email: string, endpoint: string, expires: int,
                              raw: string, now: int)
    requires Lawful(lib)
    requires TrimSpace(raw) == lib.encode(CodePayload(lib, cfg, token, email, endpoint, expires))
    ensures var f := CodeFields(lib, cfg, token, email, endpoint, expires);
      var r := ParseAndVerify(lib, false, raw, now);
      && (r.Ok? <==> Trustworthy(lib, f) && Unix(now) < Unix(expires))
      && (r.Ok? ==> r.value.f == f && IsMinted(lib, r.value.f, cfg, token, email, endpoint, expires))
  {
    LocalPartMeaning(email);
    var p := CodePayload(lib, cfg, token, email, endpoint, expires);
    assert lib.decode(lib.encode(p)) == Some(p);
    assert lib.keyReadable(lib.publicKey(cfg.key));
    assert lib.sigReadable(lib.sign(cfg.key, p.f)) && lib.verify(lib.publicKey(cfg.key), p.f, lib.sign(cfg.key, p.f));
    AcceptedIff(lib, raw, now);
  }

  lemma WithinSecondsIsBefore(now: int, expires: int)
    requires Unix(now) < Unix(expires)
    ensures now < expires
  {
  }

  /** A mint stands through requests that neither carry its token nor come after its window. */
  lemma {:induction false} MintStands(before: seq<Action>, a: Action, after: seq<Action>, now: int)
    requires a.Mint? && now <= a.expires
    requires forall j :: 0 <= j < |after| ==> after[j].token != a.token && after[j].now <= now
    ensures var tokens := After(before + [a] + after);
      a.token in tokens && tokens[a.token] == Pending(a.email, a.expires)
    decreases |after|
  {
    var run := before + [a] + after;
    var n := |run| - 1;
    if after == [] {
      assert run == before + [a] && run[..n] == before;
    } else {
      assert run[..n] == before + [a] + after[..|after| - 1] && run[n] == after[|after| - 1];
      MintStands(before, a, after[..|after| - 1], now);
    }
  }

  /**
    A code the client accepts redeems: at that instant its token is still held, whatever else the service did, unless
    someone presented the token first, and presenting it with the code's own user name yields that mailbox.
   */
  lemma AcceptedCodeRedeems(lib: Lib, cfg: Config, token: string, email: string, endpoint: string, expires: int,
                            minted: int, before: seq<Action>, after: seq<Action>, raw: string, now: int)
    requires Lawful(lib)
    requires TrimSpace(raw) == lib.encode(CodePayload(lib, cfg, token, email, endpoint, expires))
    requires ParseAndVerify(lib, false, raw, now).Ok?
    requires forall j :: 0 <= j < |after| ==> after[j].token != token && after[j].now <= now
    ensures var f := ParseAndVerify(lib, false, raw, now).value.f;
      var tokens := After(before + [Mint(token, email, expires, minted)] + after);
      f.token in tokens && Granted(lib, tokens, f.token, f.username, now) == Some(email)
  {
    MintedCodeAcceptedIff(lib, cfg, token, email, endpoint, expires, raw, now);
    WithinSecondsIsBefore(now, expires);
    MintStands(before, Mint(token, email, expires, minted), after, now);
  }
}
