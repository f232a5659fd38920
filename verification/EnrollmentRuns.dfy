/** Whole runs of the enrollment service, restarts included. */
module EnrollmentRuns {
  import opened Common
  import opened EnrollmentState
  import opened Fingerprints

  function After(events: seq<Event>): State {
    if events == [] then EMPTY else Step(After(events[..|events| - 1]), events[|events| - 1]).0
  }

  function AnswerTo(events: seq<Event>, e: Event): Answer {
    Step(After(events), e).1
  }

  /** The answers to everything but restarts, in order. */
  function Answers(events: seq<Event>): seq<Answer> {
    if events == [] then []
    else
      var front, last := events[..|events| - 1], events[|events| - 1];
      if last.Restart? then Answers(front) else Answers(front) + [AnswerTo(front, last)]
  }

  function WithoutRestarts(events: seq<Event>): seq<Event> {
    if events == [] then []
    else
      var front, last := events[..|events| - 1], events[|events| - 1];
      if last.Restart? then WithoutRestarts(front) else WithoutRestarts(front) + [last]
  }

  // ---- the store mirrors the maps ----

  predicate Mirrored(s: State) {
    s.tokenRows == s.tokens && s.credentialRows == s.credentials
  }

  lemma {:induction false} AlwaysMirrored(events: seq<Event>)
    ensures Mirrored(After(events))
  {
    if events != [] {
      AlwaysMirrored(events[..|events| - 1]);
    }
  }

  /** Restarting and loading, anywhere and any number of times, changes no state and no answer. */
  lemma {:induction false} RestartsChangeNothing(events: seq<Event>)
    ensures After(events) == After(WithoutRestarts(events))
    ensures Answers(events) == Answers(WithoutRestarts(events))
  {
    if events != [] {
      var front, last := events[..|events| - 1], events[|events| - 1];
      RestartsChangeNothing(front);
      AlwaysMirrored(front);
      if !last.Restart? {
        var rest := WithoutRestarts(front);
        assert (rest + [last])[..|rest|] == rest;
      }
    }
  }

  // ---- tokens ----

  predicate IssuedIn(events: seq<Event>, token: string) {
    exists e :: e in events && e.IssueToken? && e.token == token
  }

  /** Token secrets are new and not empty. */
  ghost predicate FreshTokens(events: seq<Event>) {
    events == [] ||
    (var front, last := events[..|events| - 1], events[|events| - 1];
     FreshTokens(front) && (last.IssueToken? ==> last.token != "" && !IssuedIn(front, last.token)))
  }

  /** Whether e exchanges the token for a credential. */
  predicate Mints(events: seq<Event>, e: Event, token: string) {
    e.Enroll? && e.token == token && AnswerTo(events, e).Enrolled?
  }

  /** How many credentials have been minted with a token. */
  function Minted(events: seq<Event>, token: string): nat {
    if events == [] then 0
    else
      var front, last := events[..|events| - 1], events[|events| - 1];
      Minted(front, token) + (if Mints(front, last, token) then 1 else 0)
  }

  /** The terms a token was issued on, unless it has been revoked since: read off the history alone. */
  function Granted(events: seq<Event>, token: string): Option<Token> {
    if events == [] then None
    else
      match events[|events| - 1]
      case IssueToken(t, nodeType, ttl, oneTimeUse, now) =>
        if t == token then Some(Token(nodeType, now + ttl, oneTimeUse, false))
        else Granted(events[..|events| - 1], token)
      case RevokeToken(t) => if t == token then None else Granted(events[..|events| - 1], token)
      case _ => Granted(events[..|events| - 1], token)
  }

  /** A token in memory is on the terms it was granted on, and used exactly when it has minted something. */
  ghost predicate Faithful(events: seq<Event>, token: string) {
    var tokens := After(events).tokens;
    Sha256(token) in tokens ==>
      var t := tokens[Sha256(token)];
      Granted(events, token) == Some(t.(used := false)) && (t.used <==> Minted(events, token) > 0)
  }

  lemma IssuedGrows(events: seq<Event>, token: string)
    requires events != []
    ensures IssuedIn(events, token) <==>
      IssuedIn(events[..|events| - 1], token) || (events[|events| - 1].IssueToken? && events[|events| - 1].token == token)
  {
    assert events == events[..|events| - 1] + [events[|events| - 1]];
  }

  lemma {:induction false} UnissuedUnknown(events: seq<Event>, token: string)
    requires !IssuedIn(events, token)
    ensures Sha256(token) !in After(events).tokens && Minted(events, token) == 0 && Granted(events, token).None?
  {
    if events != [] {
      IssuedGrows(events, token);
      AlwaysMirrored(events[..|events| - 1]);
      UnissuedUnknown(events[..|events| - 1], token);
    }
  }

  lemma {:induction false} AlwaysFaithful(events: seq<Event>, token: string)
    requires FreshTokens(events)
    ensures Faithful(events, token)
  {
    if events != [] {
      var front, last := events[..|events| - 1], events[|events| - 1];
      AlwaysFaithful(front, token);
      AlwaysMirrored(front);
      if last.IssueToken? && last.token == token {
        UnissuedUnknown(front, token);
      }
    }
  }

  lemma {:induction false} GrantedIsIssued(events: seq<Event>, token: string)
    requires Granted(events, token).Some?
    ensures exists e :: e in events && e.IssueToken? && e.token == token
                        && e.oneTimeUse == Granted(events, token).value.oneTimeUse
  {
    var front, last := events[..|events| - 1], events[|events| - 1];
    assert events == front + [last];
    if !(last.IssueToken? && last.token == token) {
      GrantedIsIssued(front, token);
      var e :| e in front && e.IssueToken? && e.token == token && e.oneTimeUse == Granted(front, token).value.oneTimeUse;
      assert e in events;
    } else {
      assert last in events;
    }
  }

  /** A token issued for one use mints at most one credential in any run. */
  lemma {:induction false} OneTimeMintsOnce(events: seq<Event>, token: string)
    requires forall e :: e in events && e.IssueToken? && e.token == token ==> e.oneTimeUse
    requires FreshTokens(events)
    ensures Minted(events, token) <= 1
  {
    if events != [] {
      var front, last := events[..|events| - 1], events[|events| - 1];
      assert events == front + [last];
      OneTimeMintsOnce(front, token);
      AlwaysFaithful(front, token);
      if Mints(front, last, token) {
        GrantedIsIssued(front, token);
      }
    }
  }

  // ---- exactly which enrollments succeed ----

  function TimeOf(e: Event): Option<int> {
    if e.IssueToken? || e.Enroll? || e.SweepExpired? then Some(e.now) else None
  }

  /** The time of the last event that looked at the clock. */
  function Clock(events: seq<Event>): Option<int> {
    if events == [] then None
    else
      var t := TimeOf(events[|events| - 1]);
      if t.Some? then t else Clock(events[..|events| - 1])
  }

  predicate NotBefore(e: Event, clock: Option<int>) {
    TimeOf(e).Some? && clock.Some? ==> clock.value <= TimeOf(e).value
  }

  predicate Monotone(events: seq<Event>) {
    events == [] || (Monotone(events[..|events| - 1]) && NotBefore(events[|events| - 1], Clock(events[..|events| - 1])))
  }

  /** A granted token that memory no longer holds has expired. */
  ghost predicate MissingOnlyIfExpired(events: seq<Event>, token: string) {
    Sha256(token) !in After(events).tokens && Granted(events, token).Some? ==>
      Clock(events).Some? && Granted(events, token).value.expiresAt < Clock(events).value
  }

  lemma {:induction false} AlwaysMissingOnlyIfExpired(events: seq<Event>, token: string)
    requires FreshTokens(events) && Monotone(events)
    ensures MissingOnlyIfExpired(events, token)
  {
    if events != [] {
      var front := events[..|events| - 1];
      AlwaysMissingOnlyIfExpired(front, token);
      AlwaysFaithful(front, token);
      AlwaysMirrored(front);
    }
  }

  /** With a clock that never runs backwards, an enrollment succeeds exactly when its token has been issued and not
      revoked, has not expired, has not minted before if it is for one use, covers the node type, and the identity and
      the certificate are well formed; sweeps and restarts make no difference. */
  lemma EnrollsIff(events: seq<Event>, e: Event)
    requires FreshTokens(events) && Monotone(events) && e.Enroll? && NotBefore(e, Clock(events))
    ensures AnswerTo(events, e).Enrolled? <==>
      var g := Granted(events, e.token);
      && e.token != "" && g.Some? && e.now <= g.value.expiresAt
      && (g.value.oneTimeUse ==> Minted(events, e.token) == 0)
      && (g.value.nodeType == "" || g.value.nodeType == e.identity.nodeType)
      && Trimmed(e.identity.nodeName) != "" && !e.certificate.Unreadable?
      && e.identity.nodeType in {"azure_direct", "gsa_remotenet", "gsa_client", "cloudflare_client", "external_direct"}
  {
    AlwaysFaithful(events, e.token);
    AlwaysMissingOnlyIfExpired(events, e.token);
  }

  lemma Extended(events: seq<Event>, e: Event)
    ensures After(events + [e]) == Step(After(events), e).0
  {
    assert (events + [e])[..|events|] == events;
  }

  /** The tokens of a table whose time is over. */
  function Over(tokens: map<Digest, Token>, now: int): set<Digest> {
    set h | h in tokens && tokens[h].expiresAt != 0 && tokens[h].expiresAt < now
  }

  /** A sweep takes exactly the tokens whose time is over, from memory and store, and says how many. */
  lemma SweepMeans(events: seq<Event>, now: int)
    ensures var tokens, s := After(events).tokens, After(events + [SweepExpired(now)]);
      && s.tokens == s.tokenRows == tokens - Over(tokens, now)
      && AnswerTo(events, SweepExpired(now)) == Removed(|Over(tokens, now)|)
  {
    Extended(events, SweepExpired(now));
    AlwaysMirrored(events);
    assert Over(After(events).tokens, now) == StaleKeys(After(events).tokens, now);
  }

  /** Revoking a token answers yes if it can still be used or has been used up, no if it was never granted, has been
      revoked or, once its time is over, may have been swept. */
  lemma RevokeTokenAnswers(events: seq<Event>, token: string)
    requires FreshTokens(events) && Monotone(events)
    ensures var answer, g := AnswerTo(events, RevokeToken(token)), Granted(events, token);
      && (answer == Yes || answer == No) && (answer == Yes ==> g.Some?)
      && (g.Some? && (Clock(events).None? || Clock(events).value <= g.value.expiresAt) ==> answer == Yes)
  {
    AlwaysFaithful(events, token);
    AlwaysMissingOnlyIfExpired(events, token);
  }

  // ---- credentials ----

  /** Some enrollment has given the node a credential. */
  ghost predicate EverMinted(events: seq<Event>, nodeId: string) {
    events != [] &&
    (var front, last := events[..|events| - 1], events[|events| - 1];
     EverMinted(front, nodeId) || (last.Enroll? && AnswerTo(front, last).Enrolled? && NodeId(last.identity) == nodeId))
  }

  /** Revoking a credential answers yes exactly when the node has ever been given one. */
  lemma {:induction false} RevokeCredentialAnswers(events: seq<Event>, nodeId: string)
    ensures AnswerTo(events, RevokeCredential(nodeId)) == (if EverMinted(events, nodeId) then Yes else No)
  {
    if events != [] {
      var front, last := events[..|events| - 1], events[|events| - 1];
      RevokeCredentialAnswers(front, nodeId);
      AlwaysMirrored(front);
      KnownByStep(After(front), last, nodeId);
    }
  }

  lemma KnownByStep(s: State, e: Event, nodeId: string)
    requires Mirrored(s)
    ensures nodeId in Step(s, e).0.credentials <==>
      nodeId in s.credentials || (e.Enroll? && Step(s, e).1.Enrolled? && NodeId(e.identity) == nodeId)
  {
  }

  /** The credential a node was last given, unless it has been revoked since. */
  function LastMinted(events: seq<Event>, nodeId: string): Option<string> {
    if events == [] then None
    else
      var front, last := events[..|events| - 1], events[|events| - 1];
      if last.Enroll? && AnswerTo(front, last).Enrolled? && NodeId(last.identity) == nodeId then Some(last.credential)
      else if last == RevokeCredential(nodeId) then None
      else LastMinted(front, nodeId)
  }

  ghost predicate Holds(s: State, nodeId: string, minted: Option<string>) {
    match minted
    case Some(c) => nodeId in s.credentials && s.credentials[nodeId].hash == Sha256(c) && !s.credentials[nodeId].revoked
    case None => nodeId in s.credentials ==> s.credentials[nodeId].revoked
  }

  lemma {:induction false} HoldsLastMinted(events: seq<Event>, nodeId: string)
    ensures Holds(After(events), nodeId, LastMinted(events, nodeId))
  {
    if events != [] {
      HoldsLastMinted(events[..|events| - 1], nodeId);
      AlwaysMirrored(events[..|events| - 1]);
    }
  }

  /** A credential verifies exactly when it is the last one minted for its node and has not been revoked since. */
  lemma VerifiesIff(events: seq<Event>, nodeId: string, credential: string)
    ensures AnswerTo(events, VerifyCredential(nodeId, credential)) == Yes <==>
      credential != "" && LastMinted(events, nodeId) == Some(credential)
  {
    HoldsLastMinted(events, nodeId);
  }

  /** The certificate that came with the last mint for a node, unless the node has been revoked since. */
  function LastPinned(events: seq<Event>, nodeId: string): Option<Certificate> {
    if events == [] then None
    else
      var front, last := events[..|events| - 1], events[|events| - 1];
      if last.Enroll? && AnswerTo(front, last).Enrolled? && NodeId(last.identity) == nodeId
      then Some(last.certificate)
      else if last == RevokeCredential(nodeId) then None
      else LastPinned(front, nodeId)
  }

  ghost predicate Pins(s: State, nodeId: string, pinned: Option<Certificate>) {
    match pinned
    case Some(c) =>
      nodeId in s.credentials && s.credentials[nodeId].fingerprint == FingerprintOf(c) && !s.credentials[nodeId].revoked
    case None => nodeId in s.credentials ==> s.credentials[nodeId].revoked
  }

  lemma StepPins(s: State, e: Event, nodeId: string, pinned: Option<Certificate>)
    requires Mirrored(s) && Pins(s, nodeId, pinned)
    ensures Pins(Step(s, e).0, nodeId,
                 if e.Enroll? && Step(s, e).1.Enrolled? && NodeId(e.identity) == nodeId then Some(e.certificate)
                 else if e == RevokeCredential(nodeId) then None
                 else pinned)
  {
  }

  lemma {:induction false} PinsLastPinned(events: seq<Event>, nodeId: string)
    ensures Pins(After(events), nodeId, LastPinned(events, nodeId))
  {
    if events != [] {
      var front, last := events[..|events| - 1], events[|events| - 1];
      PinsLastPinned(front, nodeId);
      AlwaysMirrored(front);
      StepPins(After(front), last, nodeId, LastPinned(front, nodeId));
    }
  }

  /** What a node presents verifies exactly when a certificate came with the last mint for the node, the node has not
      been revoked since, and the fingerprint presented reads as the digest of that certificate. */
  lemma PresentedVerifiesIff(events: seq<Event>, nodeId: string, fingerprint: string)
    ensures AnswerTo(events, VerifyClientCert(nodeId, fingerprint)) == Yes <==>
      var pinned := LastPinned(events, nodeId);
      pinned.Some? && pinned.value.Readable? && pinned.value.digest != [] && HexBytes(Bare(fingerprint)) == pinned.value.digest
  {
    PinsLastPinned(events, nodeId);
    var pinned := LastPinned(events, nodeId);
    if pinned.Some? && pinned.value.Readable? {
      OtherTextIff(pinned.value.digest, fingerprint);
      TextsNotEmpty(pinned.value.digest);
    }
  }

  /** A client certificate verifies exactly when it is, byte for byte of its digest, the one that came with the last mint
      for the node, and the node has not been revoked since; in whichever of the two usual ways its digest is printed. */
  lemma CertVerifiesIff(events: seq<Event>, nodeId: string, digest: seq<Byte>)
    requires digest != []
    ensures AnswerTo(events, VerifyClientCert(nodeId, X509Text(digest))) == Yes <==>
      LastPinned(events, nodeId) == Some(Readable(digest))
    ensures AnswerTo(events, VerifyClientCert(nodeId, PlainText(digest))) == Yes <==>
      LastPinned(events, nodeId) == Some(Readable(digest))
  {
    PresentedVerifiesIff(events, nodeId, X509Text(digest));
    PresentedVerifiesIff(events, nodeId, PlainText(digest));
    BareX509(digest);
    BarePlain(digest);
    PlainReadsBack(digest);
  }
}
