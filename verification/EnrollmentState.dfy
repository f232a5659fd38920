/** Enrollment tokens and node credentials, in memory and in the durable store
    (control-plane/control/enrollment.mjs). */
module EnrollmentState {
  import opened Fingerprints

  /** A SHA-256 digest: different texts have different digests. */
  datatype Digest = Sha256(text: string)

  /** nodeType "" admits any type. */
  datatype Token = Token(nodeType: string, expiresAt: int, oneTimeUse: bool, used: bool)

  datatype Credential = Credential(hash: Digest, fingerprint: string, revoked: bool)

  /** The two maps of the service and the two tables of the store. */
  datatype State = State(
    tokens: map<Digest, Token>, credentials: map<string, Credential>,
    tokenRows: map<Digest, Token>, credentialRows: map<string, Credential>)

  const EMPTY := State(map[], map[], map[], map[])

  const NODE_TYPES: set<string> := {"azure_direct", "gsa_remotenet", "gsa_client", "cloudflare_client", "external_direct"}

  /** A node name and a node type as sent. */
  datatype Identity = Identity(nodeName: string, nodeType: string)

  /** The client certificate sent along; of a readable one its SHA-256, as bytes, is all that matters. */
  datatype Certificate = NoCertificate | Unreadable | Readable(digest: seq<Byte>)

  datatype Refusal = UnknownToken | Expired | AlreadyUsed | BadIdentity | OutOfScope | BadCertificate

  datatype Answer =
    | Issued(expiresAt: int)
    | Enrolled(nodeId: string, credential: string)
    | Refused(refusal: Refusal)
    | Yes
    | No
    | Removed(count: nat)
    | Started

  datatype Event =
    | IssueToken(token: string, nodeType: string, ttl: int, oneTimeUse: bool, now: int)
    | Enroll(token: string, identity: Identity, certificate: Certificate, now: int, credential: string)
    | VerifyCredential(nodeId: string, credential: string)
    | VerifyClientCert(nodeId: string, fingerprint: string)
    | RevokeCredential(nodeId: string)
    | RevokeToken(token: string)
    | SweepExpired(now: int)
    | Restart

  // ---- names ----

  /** White space and line breaks, as String.prototype.trim takes them. */
  predicate IsSpace(c: char) {
    || c in {'\t', '\n', '\U{B}', '\U{C}', '\r', ' ', '\U{A0}', '\U{1680}', '\U{2028}', '\U{2029}', '\U{202F}',
             '\U{205F}', '\U{3000}', '\U{FEFF}'}
    || '\U{2000}' <= c <= '\U{200A}'
  }

  function Trimmed(s: string): string {
    if s == "" then ""
    else if IsSpace(s[0]) then Trimmed(s[1..])
    else if IsSpace(s[|s| - 1]) then Trimmed(s[..|s| - 1])
    else s
  }

  /** Blanks, tabs and line breaks are white space, and no other printable character of ASCII is. */
  lemma SpaceIs(c: char)
    ensures c in {' ', '\t', '\n', '\r'} ==> IsSpace(c)
    ensures '!' <= c <= '~' ==> !IsSpace(c)
  {
  }

  lemma {:induction false} TrimmedEnds(s: string)
    ensures var r := Trimmed(s); r != "" ==> !IsSpace(r[0]) && !IsSpace(r[|r| - 1])
  {
    if s != "" && IsSpace(s[0]) {
      TrimmedEnds(s[1..]);
    } else if s != "" && IsSpace(s[|s| - 1]) {
      TrimmedEnds(s[..|s| - 1]);
    }
  }

  predicate AllSpace(s: string) {
    forall i :: 0 <= i < |s| ==> IsSpace(s[i])
  }

  lemma AddFront(c: char, before: string, middle: string, after: string)
    requires IsSpace(c) && AllSpace(before)
    ensures AllSpace([c] + before) && [c] + (before + middle + after) == [c] + before + middle + after
  {
  }

  lemma AddBack(c: char, before: string, middle: string, after: string)
    requires IsSpace(c) && AllSpace(after)
    ensures AllSpace(after + [c]) && (before + middle + after) + [c] == before + middle + (after + [c])
  {
  }

  lemma {:induction false} TrimmedParts(s: string) returns (before: string, after: string)
    ensures s == before + Trimmed(s) + after && AllSpace(before) && AllSpace(after)
  {
    before, after := "", "";
    if s != "" && IsSpace(s[0]) {
      before, after := TrimmedParts(s[1..]);
      AddFront(s[0], before, Trimmed(s), after);
      assert s == [s[0]] + s[1..];
      before := [s[0]] + before;
    } else if s != "" && IsSpace(s[|s| - 1]) {
      before, after := TrimmedParts(s[..|s| - 1]);
      AddBack(s[|s| - 1], before, Trimmed(s), after);
      assert s == s[..|s| - 1] + [s[|s| - 1]];
      after := after + [s[|s| - 1]];
    }
  }

  /** Trimming takes white space off both ends, and all of it. */
  lemma TrimmedMeans(s: string) returns (before: string, after: string)
    ensures s == before + Trimmed(s) + after && AllSpace(before) && AllSpace(after)
    ensures var r := Trimmed(s); r != "" ==> !IsSpace(r[0]) && !IsSpace(r[|r| - 1])
  {
    TrimmedEnds(s);
    before, after := TrimmedParts(s);
  }

  // ---- operations ----

  function NodeId(i: Identity): string {
    i.nodeType + ":" + Trimmed(i.nodeName)
  }

  predicate Identifies(i: Identity) {
    Trimmed(i.nodeName) != "" && i.nodeType in NODE_TYPES
  }

  /** Where the first colon of a text is. */
  function ColonAt(s: string): nat {
    if s == "" || s[0] == ':' then 0 else 1 + ColonAt(s[1..])
  }

  lemma {:induction false} ColonAfter(a: string, b: string)
    requires ':' !in a
    ensures ColonAt(a + ":" + b) == |a|
  {
    if a != "" {
      assert (a + ":" + b)[1..] == a[1..] + ":" + b;
      ColonAfter(a[1..], b);
    }
  }

  lemma ColonFree(nodeType: string)
    requires nodeType in NODE_TYPES
    ensures ':' !in nodeType
  {
  }

  /** Two nodes share an id exactly when they have the same type and, but for white space around it, the same name. */
  lemma NodeIdInjective(i: Identity, j: Identity)
    requires i.nodeType in NODE_TYPES && j.nodeType in NODE_TYPES
    ensures NodeId(i) == NodeId(j) <==> i.nodeType == j.nodeType && Trimmed(i.nodeName) == Trimmed(j.nodeName)
  {
    ColonFree(i.nodeType);
    ColonFree(j.nodeType);
    SplitAtColon(i.nodeType, Trimmed(i.nodeName), j.nodeType, Trimmed(j.nodeName));
  }

  lemma SplitAtColon(a: string, b: string, a': string, b': string)
    requires ':' !in a && ':' !in a'
    ensures a + ":" + b == a' + ":" + b' <==> a == a' && b == b'
  {
    ColonAfter(a, b);
    ColonAfter(a', b');
    var s, s' := a + ":" + b, a' + ":" + b';
    if s == s' {
      assert a == s[..|a|] && a' == s'[..|a|] && b == s[|a| + 1..] && b' == s'[|a| + 1..];
    }
  }

  predicate Stale(t: Token, now: int) {
    t.expiresAt != 0 && now > t.expiresAt
  }

  function StaleKeys(tokens: map<Digest, Token>, now: int): set<Digest> {
    set h | h in tokens && Stale(tokens[h], now)
  }

  function Swept(s: State, now: int): State {
    var gone := StaleKeys(s.tokens, now);
    s.(tokens := s.tokens - gone, tokenRows := s.tokenRows - gone)
  }

  function WithToken(s: State, h: Digest, t: Token): State {
    s.(tokens := s.tokens[h := t], tokenRows := s.tokenRows[h := t])
  }

  function WithoutToken(s: State, h: Digest): State {
    s.(tokens := s.tokens - {h}, tokenRows := s.tokenRows - {h})
  }

  function WithCredential(s: State, nodeId: string, c: Credential): State {
    s.(credentials := s.credentials[nodeId := c], credentialRows := s.credentialRows[nodeId := c])
  }

  /** The fingerprint as the platform prints it, "" without a certificate. */
  function FingerprintOf(c: Certificate): string {
    if c.Readable? then X509Text(c.digest) else ""
  }

  /** The checks in their order; only a token that passes them all is consumed. */
  function TryEnroll(s: State, token: string, i: Identity, cert: Certificate, now: int, credential: string): (State, Answer) {
    var h := Sha256(token);
    if token == "" || h !in s.tokens then (s, Refused(UnknownToken))
    else
      var t := s.tokens[h];
      if now > t.expiresAt then (WithoutToken(s, h), Refused(Expired))
      else if t.oneTimeUse && t.used then (s, Refused(AlreadyUsed))
      else if !Identifies(i) then (s, Refused(BadIdentity))
      else if t.nodeType != "" && t.nodeType != i.nodeType then (s, Refused(OutOfScope))
      else if cert.Unreadable? then (s, Refused(BadCertificate))
      else
        var s1 := WithToken(s, h, t.(used := true));
        (WithCredential(s1, NodeId(i), Credential(Sha256(credential), FingerprintOf(cert), false)),
         Enrolled(NodeId(i), credential))
  }

  function Truth(b: bool): Answer {
    if b then Yes else No
  }

  predicate Verifies(s: State, nodeId: string, credential: string) {
    && nodeId in s.credentials && !s.credentials[nodeId].revoked && credential != ""
    && Sha256(credential) == s.credentials[nodeId].hash
  }

  predicate VerifiesCert(s: State, nodeId: string, fingerprint: string) {
    && nodeId in s.credentials && !s.credentials[nodeId].revoked
    && s.credentials[nodeId].fingerprint != "" && fingerprint != ""
    && SameFingerprint(s.credentials[nodeId].fingerprint, fingerprint)
  }

  function Step(s: State, e: Event): (State, Answer) {
    match e
    case IssueToken(token, nodeType, ttl, oneTimeUse, now) =>
      (WithToken(Swept(s, now), Sha256(token), Token(nodeType, now + ttl, oneTimeUse, false)), Issued(now + ttl))
    case Enroll(token, i, cert, now, credential) => TryEnroll(s, token, i, cert, now, credential)
    case VerifyCredential(n, c) => (s, Truth(Verifies(s, n, c)))
    case VerifyClientCert(n, f) => (s, Truth(VerifiesCert(s, n, f)))
    case RevokeCredential(n) =>
      if n in s.credentials then (WithCredential(s, n, s.credentials[n].(revoked := true)), Yes) else (s, No)
    case RevokeToken(token) => (WithoutToken(s, Sha256(token)), Truth(Sha256(token) in s.tokens))
    case SweepExpired(now) => (Swept(s, now), Removed(|StaleKeys(s.tokens, now)|))
    case Restart => (s.(tokens := s.tokenRows, credentials := s.credentialRows), Started)
  }
}
