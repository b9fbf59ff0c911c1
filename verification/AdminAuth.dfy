/** The authentication service object: its fields and files updated in place, each method
    taking one step of the state machine in AdminSessions. */
module AdminAuthentication {
  import opened Wrappers
  import opened AdminSessions

  /** The two files on disk, each replaced as a whole. */
  class AdminFiles {
    var sessions: Sessions
    var credential: Credential

    constructor (sessions: Sessions, credential: Credential)
      ensures this.sessions == sessions && this.credential == credential
    {
      this.sessions, this.credential := sessions, credential;
    }
  }

  predicate KeyedByID(sessions: Sessions) { forall id :: id in sessions ==> sessions[id].id == id }

  /** The unexpired ones of `sessions`. */
  method Unexpired(sessions: Sessions, now: int) returns (kept: Sessions)
    ensures kept == Cleanup(sessions, now)
  {
    kept := sessions;
    var ids := sessions.Keys;
    while ids != {}
      invariant ids <= sessions.Keys
      invariant kept == map id | id in sessions && (id in ids || now < sessions[id].expiresAt) :: sessions[id]
      decreases |ids|
    {
      var id :| id in ids;
      if now >= sessions[id].expiresAt {
        kept := kept - {id};
      }
      ids := ids - {id};
    }
  }

  class AdminAuth {
    const cfg: Config
    const files: AdminFiles
    var sessions: Sessions
    var email: string
    var passwordHash: string
    var accountID: nat
    /** The next random token. */
    var next: nat

    ghost function State(): State
      reads this, files
    {
      AdminSessions.State(Memory(sessions, Credential(email, passwordHash, accountID)),
                          Disk(files.sessions, files.credential), next)
    }

    /** Every session, in memory and on disk, is filed under its own identifier. */
    ghost predicate Valid()
      reads this, files
    {
      KeyedByID(sessions) && KeyedByID(files.sessions)
    }

    /** NewAdminAuth on existing files: a restart. */
    constructor (cfg: Config, files: AdminFiles, now: int, next: nat)
      requires KeyedByID(files.sessions)
      ensures Valid()
      ensures this.cfg == cfg && this.files == files
      ensures State() == AdminSessions.State(Load(cfg, Disk(files.sessions, files.credential), now),
                                             Disk(files.sessions, files.credential), next)
    {
      this.cfg, this.files, this.next := cfg, files, next;
      var credential := if cfg.keepsCredential then files.credential else cfg.boot;
      email, passwordHash, accountID := credential.email, credential.passwordHash, credential.accountID;
      if cfg.keepsSessions {
        var kept := Unexpired(files.sessions, now);
        sessions := kept;
      } else {
        sessions := map[];
      }
    }

    method PersistSessions(writable: bool) returns (ok: bool)
      modifies files`sessions
      ensures (Disk(files.sessions, files.credential), ok)
           == WriteSessions(cfg, old(State()).disk, sessions, writable)
    {
      if !cfg.keepsSessions {
        return true;
      }
      if writable {
        files.sessions := sessions;
      }
      return writable;
    }

    method PersistCredential(writable: bool) returns (ok: bool)
      modifies files`credential
      ensures (Disk(files.sessions, files.credential), ok)
           == WriteCredential(cfg, old(State()).disk, Credential(email, passwordHash, accountID), writable)
    {
      if !cfg.keepsCredential {
        return true;
      }
      if writable {
        files.credential := Credential(email, passwordHash, accountID);
      }
      return writable;
    }

    method CleanupLocked(now: int)
      modifies this`sessions
      ensures State() == Step(cfg, old(State()), DoCleanup(now)).0
    {
      var kept := Unexpired(sessions, now);
      sessions := kept;
    }

    method NewAccessToken(subject: string, sessionID: nat, now: int, sessionExpiry: int) returns (claims: Claims)
      modifies this`next
      ensures next == old(next) + 1
      ensures claims == Claims(subject, sessionID, old(next), now / NANOS_PER_SECOND,
                               AccessExpiry(cfg, now, sessionExpiry) / NANOS_PER_SECOND)
    {
      var expiresAt := now + cfg.accessTTL;
      if expiresAt > sessionExpiry {
        expiresAt := sessionExpiry;
      }
      claims := Claims(subject, sessionID, next, now / NANOS_PER_SECOND, expiresAt / NANOS_PER_SECOND);
      next := next + 1;
    }

    method StartBrowserSession(seen: Credential, now: int, randomOk: bool, writable: bool) returns (r: Outcome)
      requires Valid()
      modifies this, files
      ensures Valid()
      ensures (State(), r) == Login(cfg, old(State()), seen, now, randomOk, writable)
    {
      if !randomOk {
        return Failed;
      }
      var sessionID, secret := next, next + 1;
      next := next + 2;
      var refreshToken := RefreshToken(sessionID, secret);
      var refreshExpiry := now + cfg.sessionTTL;
      var claims := NewAccessToken(Subject(seen), sessionID, now, refreshExpiry);
      var session := Session(sessionID, Digest(refreshToken), claims.tokenID, seen.accountID, now, now, refreshExpiry);
      CleanupLocked(now);
      var before := sessions;
      sessions := sessions[sessionID := session];
      var ok := PersistSessions(writable);
      if !ok {
        sessions := before;
        return Failed;
      }
      return Granted(refreshToken, claims);
    }

    /** New tokens for `session`; the session itself is stored by the caller. */
    method RotateSessionTokens(session: Session, now: int)
        returns (token: RefreshToken, claims: Claims, updated: Session)
      modifies this`next
      ensures next == old(next) + 2
      ensures updated == Rotated(session, old(next), old(next) + 1, now) && token == updated.refreshHash.of
      ensures updated.id == session.id
      ensures claims == NewClaims(cfg, Credential(email, passwordHash, accountID), session.id,
                                  old(next) + 1, now, session.expiresAt)
    {
      token := RefreshToken(session.id, next);
      next := next + 1;
      claims := NewAccessToken(Subject(Credential(email, passwordHash, accountID)), session.id, now, session.expiresAt);
      updated := session.(refreshHash := Digest(token), accessID := claims.tokenID, lastSeenAt := now);
    }

    method RefreshBrowserSession(cookie: Option<RefreshToken>, now: int, randomOk: bool, writable: bool)
        returns (r: Outcome)
      requires Valid()
      modifies this, files
      ensures Valid()
      ensures (State(), r) == Refresh(cfg, old(State()), cookie, now, randomOk, writable)
    {
      hide NewClaims, Rotated;
      if cookie.None? {
        return Refused;
      }
      var token := cookie.value;
      CleanupLocked(now);
      if token.sessionID !in sessions {
        return Refused;
      }
      var session := sessions[token.sessionID];
      if now >= session.expiresAt || session.accountID != accountID || session.refreshHash != Digest(token) {
        return Refused;
      }
      if !randomOk {
        return Failed;
      }
      var nextToken, claims, updated := RotateSessionTokens(session, now);
      sessions := sessions[token.sessionID := updated];
      var ok := PersistSessions(writable);
      if !ok {
        sessions := sessions[token.sessionID := session];
        assert sessions == Cleanup(old(sessions), now);
        return Failed;
      }
      return Granted(nextToken, claims);
    }

    method AuthenticateAccessToken(token: Option<Claims>, now: int, writable: bool) returns (r: Outcome)
      requires Valid()
      modifies this, files
      ensures Valid()
      ensures (State(), r) == Authenticate(cfg, old(State()), token, now, writable)
    {
      hide ClaimsCurrent;
      if token.None? || !ClaimsCurrent(token.value, now) {
        return Refused;
      }
      var claims := token.value;
      CleanupLocked(now);
      var subject := if email == "" then "administrator" else email;
      if claims.sessionID !in sessions {
        return Refused;
      }
      var session := sessions[claims.sessionID];
      if
        || claims.subject != subject || claims.tokenID != session.accessID
        || session.accountID != accountID || now >= session.expiresAt
      {
        return Refused;
      }
      if now - session.lastSeenAt >= TOUCH_INTERVAL {
        sessions := sessions[session.id := session.(lastSeenAt := now)];
        var ok := PersistSessions(writable);
        if !ok {
          sessions := sessions[session.id := session];
          assert sessions == Cleanup(old(sessions), now);
        }
      }
      return Done;
    }

    method LogoutSession(session: Option<nat>, writable: bool) returns (r: Outcome)
      requires Valid()
      modifies this, files
      ensures Valid()
      ensures (State(), r) == Logout(cfg, old(State()), session, writable)
    {
      if session.None? {
        return Done;
      }
      sessions := sessions - {session.value};
      var ok := PersistSessions(writable);
      return if ok then Done else Failed;
    }

    method RevokeSession(id: nat, writable: bool) returns (r: Outcome)
      requires Valid()
      modifies this, files
      ensures Valid()
      ensures (State(), r) == Revoke(cfg, old(State()), id, writable)
    {
      if id !in sessions {
        return Refused;
      }
      var session := sessions[id];
      sessions := sessions - {id};
      var ok := PersistSessions(writable);
      if !ok {
        sessions := sessions[id := session];
        assert sessions == old(sessions);
        return Failed;
      }
      return Done;
    }

    method RevokeOtherSessions(current: Option<nat>, writable: bool) returns (r: Outcome)
      requires Valid()
      modifies this, files
      ensures Valid()
      ensures (State(), r) == RevokeOthers(cfg, old(State()), current, writable)
    {
      var previous := sessions;
      var ids := sessions.Keys;
      while ids != {}
        invariant ids <= previous.Keys
        invariant sessions == map id | id in previous && (id in ids || current == Some(id)) :: previous[id]
        decreases |ids|
        modifies this`sessions
      {
        var id :| id in ids;
        ids := ids - {id};
        if current == Some(id) {
          continue;
        }
        sessions := sessions - {id};
      }
      assert sessions == Only(previous, current);
      var ok := PersistSessions(writable);
      if !ok {
        sessions := previous;
        return Failed;
      }
      return Done;
    }

    method SetupAccount(newEmail: string, hash: string, writable: bool) returns (r: Outcome)
      requires Valid()
      modifies this, files
      ensures Valid()
      ensures (State(), r) == Setup(cfg, old(State()), newEmail, hash, writable)
    {
      if email != "" || passwordHash != "" {
        return Refused;
      }
      var previousEmail, previousHash := email, passwordHash;
      email, passwordHash := newEmail, hash;
      var ok := PersistCredential(writable);
      if !ok {
        email, passwordHash := previousEmail, previousHash;
        return Failed;
      }
      return Done;
    }

    method Restore(previous: Credential, previousSessions: Sessions)
      modifies this`email, this`passwordHash, this`accountID, this`sessions
      ensures State() == old(State()).(mem := Memory(previousSessions, previous))
    {
      email, passwordHash, accountID := previous.email, previous.passwordHash, previous.accountID;
      sessions := previousSessions;
    }

    /** The part of a credential change that happens in memory. */
    method MoveToNewAccount(c: Change) returns (ok: bool, r: Outcome)
      requires c.accountOk && KeyedByID(sessions)
      modifies this`email, this`passwordHash, this`accountID, this`sessions, this`next
      ensures ok == (!KeepsCurrent(old(State()), c) || c.rotateOk)
      ensures next == NextAfter(old(State()), c)
      ensures ok ==> State().mem == Memory(ChangedSessions(old(State()), c), ChangedCredential(old(State()), c))
      ensures ok ==> r == ChangeGrants(cfg, old(State()), c)
      ensures !ok ==> State().mem == old(State()).mem
      ensures KeyedByID(sessions)
    {
      hide NewClaims, Rotated;
      var previous := Credential(email, passwordHash, accountID);
      var nextAccountID := next;
      next := next + 1;
      if c.email != "" {
        email := c.email;
      }
      if c.hash != "" {
        passwordHash := c.hash;
      }
      accountID := nextAccountID;
      ok, r := true, Done;
      var nextSessions: Sessions := map[];
      if c.current.Some? && c.current.value in sessions {
        if !c.rotateOk {
          Restore(previous, sessions);
          return false, Failed;
        }
        var session := sessions[c.current.value].(accountID := accountID);
        var token, claims, updated := RotateSessionTokens(session, c.now);
        nextSessions := map[c.current.value := updated];
        RotatedKeeps(session, next - 2, next - 1, c.now);
        r := Granted(token, claims);
      }
      sessions := nextSessions;
    }

    method ChangeCredentials(c: Change) returns (r: Outcome)
      requires Valid()
      modifies this, files
      ensures Valid()
      ensures (State(), r) == UpdateCredentials(cfg, old(State()), c)
    {
      hide ChangedSessions, ChangedCredential, ChangeGrants;
      if !c.passwordOk {
        return Refused;
      }
      if !c.accountOk {
        return Failed;
      }
      var previous, previousSessions := Credential(email, passwordHash, accountID), sessions;
      var moved, granted := MoveToNewAccount(c);
      if !moved {
        return Failed;
      }
      var sessionsOk := PersistSessions(c.sessionsOk);
      if !sessionsOk {
        Restore(previous, previousSessions);
        return Failed;
      }
      var credentialOk := PersistCredential(c.credentialOk);
      if !credentialOk {
        Restore(previous, previousSessions);
        var _ := PersistSessions(c.rollbackOk);
        return Failed;
      }
      return granted;
    }
  }

  lemma RotatedKeeps(session: Session, secret: nat, tokenID: nat, now: int)
    ensures var r := Rotated(session, secret, tokenID, now);
            r.id == session.id && r.accessID == tokenID && r.expiresAt == session.expiresAt
  {
  }
}
