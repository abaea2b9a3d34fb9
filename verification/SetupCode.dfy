/** Signed setup codes: what the client accepts. */
module SetupCode {
  import opened Ascii
  import opened Hosts
  import opened Spaces

  datatype Option<T> = None | Some(value: T)

  datatype Error = UnknownVersion | CodeExpired | InvalidSignature | InsecureTransport | InvalidPort | Malformed

  datatype Result<T> = Ok(value: T) | Err(error: Error)

  /** What the signature covers.  `expiresAt` is in seconds. */
  datatype Fields = Fields(
    v: int, server: string, imapPort: int, imapTLS: string, smtpPort: int, smtpTLS: string, username: string,
    displayName: string, token: string, endpoint: string, pubkey: string, expiresAt: int)

  datatype Payload = Payload(f: Fields, sig: string)

  datatype Url = Url(scheme: string, hasUser: bool, port: string, host: string)

  /** Base64 and JSON, URL parsing, Ed25519 and the folding of letter case as parameters. */
  datatype Lib = Lib(
    decode: string -> Option<Payload>, encode: Payload -> string,
    parseUrl: string -> Option<Url>, fold: string -> string,
    keyReadable: string -> bool, sigReadable: string -> bool,
    publicKey: int -> string, sign: (int, Fields) -> string, verify: (string, Fields, string) -> bool)

  /** An encoding without white space that reads back, and an ideal signature. */
  ghost predicate Lawful(lib: Lib) {
    && (forall p :: lib.decode(lib.encode(p)) == Some(p))
    && (forall k :: lib.keyReadable(lib.publicKey(k)))
    && (forall k, f :: lib.sigReadable(lib.sign(k, f)) && lib.verify(lib.publicKey(k), f, lib.sign(k, f)))
  }

  const NANOS := 1_000_000_000

  /** Whole seconds of a time in nanoseconds. */
  function Unix(t: int): int {
    t / NANOS
  }

  predicate ValidTLS(mode: string) {
    mode == "tls" || mode == "starttls"
  }

  /** Builds made for testing let plain transport through. */
  predicate ModeAllowed(mode: string, allowPlain: bool) {
    ValidTLS(mode) || (allowPlain && mode == "plain")
  }

  predicate ValidPort(p: int) {
    1 <= p <= 65535
  }

  function LastAt(s: string): int {
    if s == "" then -1 else if s[|s| - 1] == '@' then |s| - 1 else LastAt(s[..|s| - 1])
  }

  lemma {:induction false} LastAtIs(s: string)
    ensures -1 <= LastAt(s) < |s|
  {
    if s != "" { LastAtIs(s[..|s| - 1]); }
  }

  function DomainOf(email: string): string {
    var i := (LastAtIs(email); LastAt(email));
    if i >= 0 then Lower(email[i + 1..]) else ""
  }

  function EndpointError(lib: Lib, endpoint: string, domain: string): Option<Error> {
    var u := lib.parseUrl(endpoint);
    if u.None? then Some(Malformed)
    else if u.value.scheme != "https" then Some(InsecureTransport)
    else if u.value.hasUser then Some(Malformed)
    else if u.value.port != "" && u.value.port != "443" then Some(Malformed)
    else if !PublicMailDomain(u.value.host) then Some(Malformed)
    else if !HostInDomain(u.value.host, domain) then Some(Malformed)
    else None
  }

  function HostsError(lib: Lib, f: Fields): Option<Error> {
    var domain := DomainOf(f.username);
    if !PublicMailDomain(domain) then Some(Malformed)
    else if !PublicMailDomain(f.server) || !HostInDomain(f.server, domain) then Some(Malformed)
    else EndpointError(lib, f.endpoint, domain)
  }

  /** What is checked once the signature holds. */
  function FieldsError(lib: Lib, allowPlain: bool, f: Fields): Option<Error> {
    if !ModeAllowed(f.imapTLS, allowPlain) || !ModeAllowed(f.smtpTLS, allowPlain) then Some(InsecureTransport)
    else if !ValidPort(f.imapPort) || !ValidPort(f.smtpPort) then Some(InvalidPort)
    else HostsError(lib, f)
  }

  function ParseAndVerify(lib: Lib, allowPlain: bool, raw: string, now: int): Result<Payload> {
    var decoded := lib.decode(TrimSpace(raw));
    if decoded.None? then Err(Malformed)
    else
      var p := decoded.value;
      if p.f.v != 1 then Err(UnknownVersion)
      else if Unix(now) >= p.f.expiresAt then Err(CodeExpired)
      else if !lib.keyReadable(p.f.pubkey) || !lib.sigReadable(p.sig) then Err(InvalidSignature)
      else if !lib.verify(p.f.pubkey, p.f, p.sig) then Err(InvalidSignature)
      else
        var e := FieldsError(lib, allowPlain, p.f);
        if e.Some? then Err(e.value) else Ok(p)
  }

  /** The last labels of `host` are those of the mailbox's domain. */
  ghost predicate Within(host: string, username: string) {
    LabelSuffix(Labels(Lower(host)), Labels(DomainOf(username)))
  }

  lemma {:induction false} FirstLabelStarts(s: string)
    requires s != "" && Labels(s)[0] != ""
    ensures Labels(s)[0][0] == s[0]
  {
    assert Labels(s)[0] == [s[0]] + Labels(s[1..])[0];
  }

  lemma {:induction false} LastLabelEnds(s: string)
    requires s != ""
    ensures var last := Labels(s)[|Labels(s)| - 1];
      if s[|s| - 1] == '.' then last == "" else last != "" && last[|last| - 1] == s[|s| - 1]
  {
    if |s| > 1 {
      LastLabelEnds(s[1..]);
      assert s[1..][|s| - 2] == s[|s| - 1];
    } else if s[0] != '.' {
      assert Labels(s) == [[s[0]] + ""] + [];
    }
  }

  /** A public name has nothing to trim. */
  lemma PublicIsTrimmed(s: string)
    requires PublicMailDomain(s)
    ensures s != "" && TrimSpace(s) == s
  {
    var labels := Labels(s);
    assert ValidLabel(labels[0]) && ValidLabel(labels[|labels| - 1]);
    FirstLabelStarts(s);
    LastLabelEnds(s);
    TrimmedIsFixed(s);
  }

  ghost predicate SafeEndpoint(u: Option<Url>, username: string) {
    && u.Some? && u.value.scheme == "https" && !u.value.hasUser && (u.value.port == "" || u.value.port == "443")
    && PublicMailDomain(u.value.host) && Within(u.value.host, username)
  }

  ghost predicate HostsTrusted(lib: Lib, f: Fields) {
    && PublicMailDomain(DomainOf(f.username)) && PublicMailDomain(f.server) && Within(f.server, f.username)
    && SafeEndpoint(lib.parseUrl(f.endpoint), f.username)
  }

  /** Encrypted modes, valid ports, and every host public and inside the mailbox's own public domain. */
  ghost predicate Trustworthy(lib: Lib, f: Fields) {
    && ValidTLS(f.imapTLS) && ValidTLS(f.smtpTLS) && ValidPort(f.imapPort) && ValidPort(f.smtpPort)
    && HostsTrusted(lib, f)
  }

  ghost predicate Signed(lib: Lib, p: Payload) {
    lib.keyReadable(p.f.pubkey) && lib.sigReadable(p.sig) && lib.verify(p.f.pubkey, p.f, p.sig)
  }

  lemma WithinIsHostInDomain(host: string, username: string)
    requires PublicMailDomain(host) && PublicMailDomain(DomainOf(username))
    ensures HostInDomain(host, DomainOf(username)) <==> Within(host, username)
  {
    var domain := DomainOf(username);
    PublicIsTrimmed(host);
    PublicIsTrimmed(domain);
    assert Lower(domain) == domain;
    InDomainIsLabelSuffix(host, domain);
  }

  lemma EndpointAccepted(lib: Lib, endpoint: string, username: string)
    requires PublicMailDomain(DomainOf(username))
    ensures EndpointError(lib, endpoint, DomainOf(username)).None? <==> SafeEndpoint(lib.parseUrl(endpoint), username)
  {
    var u := lib.parseUrl(endpoint);
    if u.Some? && PublicMailDomain(u.value.host) { WithinIsHostInDomain(u.value.host, username); }
  }

  lemma HostsTrustedIff(lib: Lib, f: Fields)
    ensures HostsError(lib, f).None? <==> HostsTrusted(lib, f)
  {
    var domain := DomainOf(f.username);
    if PublicMailDomain(domain) {
      if PublicMailDomain(f.server) {
        WithinIsHostInDomain(f.server, f.username);
        EndpointAccepted(lib, f.endpoint, f.username);
      }
    }
  }

  lemma TrustworthyIff(lib: Lib, f: Fields)
    ensures FieldsError(lib, false, f).None? <==> Trustworthy(lib, f)
  {
    if ModeAllowed(f.imapTLS, false) && ModeAllowed(f.smtpTLS, false) {
      if ValidPort(f.imapPort) && ValidPort(f.smtpPort) {
        assert FieldsError(lib, false, f) == HostsError(lib, f);
        HostsTrustedIff(lib, f);
      }
    }
  }

  /**
    A code is accepted exactly when it is unexpired, signed by the key it names, and trustworthy: whoever made it,
    it can point the client nowhere outside the mailbox's domain.  What is returned is what was decoded.
   */
  lemma AcceptedIff(lib: Lib, raw: string, now: int)
    ensures var d := lib.decode(TrimSpace(raw)); var r := ParseAndVerify(lib, false, raw, now);
      && (r.Ok? <==> d.Some? && d.value.f.v == 1 && Unix(now) < d.value.f.expiresAt && Signed(lib, d.value)
                     && Trustworthy(lib, d.value.f))
      && (r.Ok? ==> r.value == d.value)
  {
    var d := lib.decode(TrimSpace(raw));
    if d.Some? { TrustworthyIff(lib, d.value.f); }
  }

  /**
    What a refusal means, first fault first.  Transport, port and host errors are reported of authentic codes only.
   */
  lemma RefusalMeaning(lib: Lib, raw: string, now: int)
    ensures var d := lib.decode(TrimSpace(raw)); var r := ParseAndVerify(lib, false, raw, now);
      && (r == Err(UnknownVersion) <==> d.Some? && d.value.f.v != 1)
      && (r == Err(CodeExpired) <==> d.Some? && d.value.f.v == 1 && d.value.f.expiresAt <= Unix(now))
      && (r == Err(InvalidSignature) <==>
            d.Some? && d.value.f.v == 1 && Unix(now) < d.value.f.expiresAt && !Signed(lib, d.value))
      && (r.Err? && r.error in {InsecureTransport, InvalidPort} ==> d.Some? && Signed(lib, d.value))
  {
    var d := lib.decode(TrimSpace(raw));
    if d.Some? { FieldsErrorKind(lib, d.value.f); }
  }

  lemma FieldsErrorKind(lib: Lib, f: Fields)
    ensures var e := FieldsError(lib, false, f); e.Some? ==> e.value in {InsecureTransport, InvalidPort, Malformed}
  {
  }
}
