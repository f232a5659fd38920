/** The enrollment service as it is run over a durable store, each operation tied to its function on states. */
module Enrollment {
  import opened EnrollmentState
  import opened Fingerprints

  /** The two tables of the store. */
  class Tables {
    var enrollments: map<Digest, Token>
    var credentials: map<string, Credential>

    constructor ()
      ensures enrollments == map[] && credentials == map[]
    {
      enrollments, credentials := map[], map[];
    }
  }

  class EnrollmentService {
    const store: Tables
    var tokens: map<Digest, Token>
    var credentials: map<string, Credential>

    ghost function Abstract(): State
      reads this, store
    {
      State(tokens, credentials, store.enrollments, store.credentials)
    }

    /** A new process over the tables of an earlier one knows nothing until it has loaded them. */
    constructor (store: Tables)
      ensures this.store == store && tokens == map[] && credentials == map[]
    {
      this.store, tokens, credentials := store, map[], map[];
    }

    method IssueToken(token: string, nodeType: string, ttl: int, oneTimeUse: bool, now: int) returns (expiresAt: int)
      modifies this, store
      ensures (Abstract(), Issued(expiresAt))
           == Step(old(Abstract()), Event.IssueToken(token, nodeType, ttl, oneTimeUse, now))
    {
      var _ := SweepExpired(now);
      expiresAt := now + ttl;
      var record := Token(nodeType, expiresAt, oneTimeUse, false);
      var tokenHash := Sha256(token);
      tokens := tokens[tokenHash := record];
      store.enrollments := store.enrollments[tokenHash := record];
    }

    method Enroll(token: string, identity: Identity, cert: Certificate, now: int, credential: string)
      returns (answer: Answer)
      modifies this, store
      ensures (Abstract(), answer) == Step(old(Abstract()), Event.Enroll(token, identity, cert, now, credential))
    {
      var tokenHash := Sha256(token);
      if token == "" || tokenHash !in tokens {
        return Refused(UnknownToken);
      }
      var rec := tokens[tokenHash];
      if now > rec.expiresAt {
        tokens := tokens - {tokenHash};
        store.enrollments := store.enrollments - {tokenHash};
        return Refused(Expired);
      }
      if rec.oneTimeUse && rec.used {
        return Refused(AlreadyUsed);
      }
      var nodeName := Trimmed(identity.nodeName);
      if nodeName == "" || identity.nodeType !in NODE_TYPES {
        return Refused(BadIdentity);
      }
      if rec.nodeType != "" && rec.nodeType != identity.nodeType {
        return Refused(OutOfScope);
      }
      var fingerprint := "";
      match cert {
        case NoCertificate =>
        case Unreadable => return Refused(BadCertificate);
        case Readable(digest) => fingerprint := X509Text(digest);
      }
      rec := rec.(used := true);
      tokens := tokens[tokenHash := rec];
      store.enrollments := store.enrollments[tokenHash := rec];
      var nodeId := identity.nodeType + ":" + nodeName;
      var credRec := Credential(Sha256(credential), fingerprint, false);
      credentials := credentials[nodeId := credRec];
      store.credentials := store.credentials[nodeId := credRec];
      return Enrolled(nodeId, credential);
    }

    method VerifyCredential(nodeId: string, credential: string) returns (ok: bool)
      ensures (Abstract(), Truth(ok)) == Step(Abstract(), Event.VerifyCredential(nodeId, credential))
    {
      if nodeId !in credentials || credentials[nodeId].revoked || credential == "" {
        return false;
      }
      return Sha256(credential) == credentials[nodeId].hash;
    }

    method VerifyClientCert(nodeId: string, fingerprint: string) returns (ok: bool)
      ensures (Abstract(), Truth(ok)) == Step(Abstract(), Event.VerifyClientCert(nodeId, fingerprint))
    {
      if nodeId !in credentials || credentials[nodeId].revoked {
        return false;
      }
      var pinned := credentials[nodeId].fingerprint;
      if pinned == "" || fingerprint == "" {
        return false;
      }
      return HexBytes(Bare(pinned)) == HexBytes(Bare(fingerprint));
    }

    method RevokeCredential(nodeId: string) returns (known: bool)
      modifies this, store
      ensures (Abstract(), Truth(known)) == Step(old(Abstract()), Event.RevokeCredential(nodeId))
    {
      known := nodeId in credentials;
      if known {
        var rec := credentials[nodeId].(revoked := true);
        credentials := credentials[nodeId := rec];
        store.credentials := store.credentials[nodeId := rec];
      }
    }

    method RevokeToken(token: string) returns (known: bool)
      modifies this, store
      ensures (Abstract(), Truth(known)) == Step(old(Abstract()), Event.RevokeToken(token))
    {
      var tokenHash := Sha256(token);
      store.enrollments := store.enrollments - {tokenHash};
      known := tokenHash in tokens;
      tokens := tokens - {tokenHash};
    }

    method SweepExpired(now: int) returns (removed: nat)
      modifies this`tokens, store`enrollments
      ensures (Abstract(), Removed(removed)) == Step(old(Abstract()), Event.SweepExpired(now))
    {
      tokens, store.enrollments, removed := SweepMaps(tokens, store.enrollments, now);
    }

    method Load()
      modifies this
      ensures tokens == old(tokens) + store.enrollments && credentials == old(credentials) + store.credentials
      ensures old(tokens) == map[] && old(credentials) == map[] ==>
        Abstract() == Step(old(Abstract()), Restart).0
    {
      tokens := SetAll(tokens, store.enrollments);
      credentials := SetAll(credentials, store.credentials);
      assert map[] + store.enrollments == store.enrollments && map[] + store.credentials == store.credentials;
    }
  }

  lemma RemoveOneMore<K, V>(m: map<K, V>, gone: set<K>, k: K)
    ensures m - gone - {k} == m - (gone + {k})
  {
  }

  /** Delete every stale token from memory and from the store. */
  method SweepMaps(tokens: map<Digest, Token>, rows: map<Digest, Token>, now: int)
    returns (left: map<Digest, Token>, rowsLeft: map<Digest, Token>, removed: nat)
    ensures left == tokens - StaleKeys(tokens, now) && rowsLeft == rows - StaleKeys(tokens, now)
    ensures removed == |StaleKeys(tokens, now)|
  {
    left, rowsLeft, removed := tokens, rows, 0;
    var todo := tokens.Keys;
    ghost var gone: set<Digest> := {};
    while todo != {}
      invariant todo <= tokens.Keys && gone == StaleKeys(tokens, now) - todo
      invariant left == tokens - gone && rowsLeft == rows - gone && removed == |gone|
      decreases |todo|
    {
      var h :| h in todo;
      todo := todo - {h};
      if Stale(tokens[h], now) {
        RemoveOneMore(tokens, gone, h);
        RemoveOneMore(rows, gone, h);
        left, rowsLeft, removed := left - {h}, rowsLeft - {h}, removed + 1;
        gone := gone + {h};
      }
    }
    assert gone == StaleKeys(tokens, now);
  }

  lemma SetOneMore<K, V>(into: map<K, V>, rows: map<K, V>, todo: set<K>, k: K)
    requires k in todo && k in rows
    ensures (into + (rows - todo))[k := rows[k]] == into + (rows - (todo - {k}))
  {
  }

  /** Map.set for every row of a table. */
  method SetAll<K(==), V>(into: map<K, V>, rows: map<K, V>) returns (m: map<K, V>)
    ensures m == into + rows
  {
    m := into;
    var todo := rows.Keys;
    assert rows - todo == map[] && into + map[] == into;
    while todo != {}
      invariant todo <= rows.Keys && m == into + (rows - todo)
      decreases |todo|
    {
      var k :| k in todo;
      SetOneMore(into, rows, todo, k);
      m := m[k := rows[k]];
      todo := todo - {k};
    }
    assert rows - todo == rows;
  }
}
