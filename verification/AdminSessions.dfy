/** The administrator's sessions and credentials as a state machine over memory and two
    files (webui/admin_auth.go, webui/admin_sessions.go). Random tokens are numbers never
    drawn before, and a hash is a constructor, so that equal hashes mean equal tokens. */
module AdminSessions {
  import opened Wrappers

  const NANOS_PER_SECOND := 1_000_000_000
  const TOUCH_INTERVAL := 5 * 60 * NANOS_PER_SECOND

  datatype RefreshToken = RefreshToken(sessionID: nat, secret: nat)

  datatype Digest = Digest(of: RefreshToken)

  datatype Session = Session(
    id: nat, refreshHash: Digest, accessID: nat, accountID: nat, createdAt: int, lastSeenAt: int, expiresAt: int)

  type Sessions = map<nat, Session>

  /** What a signed access token says; times in whole seconds. */
  datatype Claims = Claims(subject: string, sessionID: nat, tokenID: nat, issuedAt: int, expiresAt: int)

  datatype Credential = Credential(email: string, passwordHash: string, accountID: nat)

  datatype Memory = Memory(sessions: Sessions, credential: Credential)

  /** The two files. */
  datatype Disk = Disk(sessions: Sessions, credential: Credential)

  /** A file without a path is never written: a restart then starts without sessions, or with
      the credential of the environment. */
  datatype Config = Config(
    accessTTL: nat, sessionTTL: nat, keepsSessions: bool, keepsCredential: bool, boot: Credential)

  /** `next` is the next random token to be drawn. */
  datatype State = State(mem: Memory, disk: Disk, next: nat)

  datatype Outcome =
    | Refused
    | Failed
    | Done
    | Granted(token: RefreshToken, claims: Claims)

  // ----- Pieces

  function Cleanup(sessions: Sessions, now: int): Sessions {
    map id | id in sessions && now < sessions[id].expiresAt :: sessions[id]
  }

  function Subject(c: Credential): string { if c.email == "" then "administrator" else c.email }

  function AccessExpiry(cfg: Config, now: int, sessionExpiry: int): int {
    if now + cfg.accessTTL > sessionExpiry then sessionExpiry else now + cfg.accessTTL
  }

  function NewClaims(cfg: Config, c: Credential, sessionID: nat, tokenID: nat, now: int, sessionExpiry: int): Claims {
    Claims(Subject(c), sessionID, tokenID, now / NANOS_PER_SECOND,
           AccessExpiry(cfg, now, sessionExpiry) / NANOS_PER_SECOND)
  }

  /** New tokens for a session, drawn as `secret` and `tokenID`. */
  function Rotated(session: Session, secret: nat, tokenID: nat, now: int): Session {
    session.(refreshHash := Digest(RefreshToken(session.id, secret)), accessID := tokenID, lastSeenAt := now)
  }

  /** An atomic write of the session file that may fail. */
  function WriteSessions(cfg: Config, disk: Disk, sessions: Sessions, ok: bool): (Disk, bool) {
    if !cfg.keepsSessions then (disk, true)
    else if ok then (disk.(sessions := sessions), true)
    else (disk, false)
  }

  function WriteCredential(cfg: Config, disk: Disk, credential: Credential, ok: bool): (Disk, bool) {
    if !cfg.keepsCredential then (disk, true)
    else if ok then (disk.(credential := credential), true)
    else (disk, false)
  }

  /** What a restart at `now` reads back. */
  function Load(cfg: Config, disk: Disk, now: int): Memory {
    Memory(if cfg.keepsSessions then Cleanup(disk.sessions, now) else map[],
           if cfg.keepsCredential then disk.credential else cfg.boot)
  }

  /** The refresh token opens its session at `now`. */
  predicate Accepts(mem: Memory, token: RefreshToken, now: int) {
    && token.sessionID in mem.sessions
    && var session := mem.sessions[token.sessionID];
       now < session.expiresAt && session.accountID == mem.credential.accountID
       && session.refreshHash == Digest(token)
  }

  /** The access token's own times are good at `now`. */
  predicate ClaimsCurrent(claims: Claims, now: int) {
    && claims.issuedAt > 0 && claims.expiresAt > claims.issuedAt
    && now / NANOS_PER_SECOND < claims.expiresAt
    && claims.issuedAt <= (now + 60 * NANOS_PER_SECOND) / NANOS_PER_SECOND
  }

  predicate AcceptsAccess(mem: Memory, claims: Claims, now: int) {
    && ClaimsCurrent(claims, now)
    && claims.sessionID in mem.sessions
    && var session := mem.sessions[claims.sessionID];
       claims.subject == Subject(mem.credential) && claims.tokenID == session.accessID
       && session.accountID == mem.credential.accountID && now < session.expiresAt
  }

  // ----- Operations

  /** startBrowserSession: `seen` is the credential read before the lock was taken. */
  function Login(cfg: Config, s: State, seen: Credential, now: int, randomOk: bool, writeOk: bool): (State, Outcome) {
    if !randomOk then (s, Failed)
    else
      var id, secret, tokenID := s.next, s.next + 1, s.next + 2;
      var token := RefreshToken(id, secret);
      var expiry := now + cfg.sessionTTL;
      var session := Session(id, Digest(token), tokenID, seen.accountID, now, now, expiry);
      var kept := Cleanup(s.mem.sessions, now);
      var (disk, ok) := WriteSessions(cfg, s.disk, kept[id := session], writeOk);
      if !ok then (State(s.mem.(sessions := kept), disk, s.next + 3), Failed)
      else (State(s.mem.(sessions := kept[id := session]), disk, s.next + 3),
            Granted(token, NewClaims(cfg, seen, id, tokenID, now, expiry)))
  }

  /** refreshBrowserSession; no token stands for a missing or malformed cookie. */
  function Refresh(
      cfg: Config, s: State, token: Option<RefreshToken>, now: int, randomOk: bool, writeOk: bool): (State, Outcome)
  {
    if token.None? then (s, Refused)
    else
      var mem := s.mem.(sessions := Cleanup(s.mem.sessions, now));
      if !Accepts(mem, token.value, now) then (s.(mem := mem), Refused)
      else if !randomOk then (s.(mem := mem), Failed)
      else
        var session := mem.sessions[token.value.sessionID];
        var updated := Rotated(session, s.next, s.next + 1, now);
        var (disk, ok) := WriteSessions(cfg, s.disk, mem.sessions[session.id := updated], writeOk);
        if !ok then (State(mem, disk, s.next + 2), Failed)
        else (State(mem.(sessions := mem.sessions[session.id := updated]), disk, s.next + 2),
              Granted(updated.refreshHash.of,
                      NewClaims(cfg, mem.credential, session.id, s.next + 1, now, session.expiresAt)))
  }

  /** authenticateAccessToken; no claims stand for a token whose signature is bad. */
  function Authenticate(cfg: Config, s: State, claims: Option<Claims>, now: int, writeOk: bool): (State, Outcome) {
    if claims.None? || !ClaimsCurrent(claims.value, now) then (s, Refused)
    else
      var mem := s.mem.(sessions := Cleanup(s.mem.sessions, now));
      if !AcceptsAccess(mem, claims.value, now) then (s.(mem := mem), Refused)
      else
        var session := mem.sessions[claims.value.sessionID];
        if now - session.lastSeenAt < TOUCH_INTERVAL then (s.(mem := mem), Done)
        else
          var touched := mem.sessions[session.id := session.(lastSeenAt := now)];
          var (disk, ok) := WriteSessions(cfg, s.disk, touched, writeOk);
          (State(if ok then mem.(sessions := touched) else mem, disk, s.next), Done)
  }

  function Logout(cfg: Config, s: State, session: Option<nat>, writeOk: bool): (State, Outcome) {
    if session.None? then (s, Done)
    else
      var left := s.mem.sessions - {session.value};
      var (disk, ok) := WriteSessions(cfg, s.disk, left, writeOk);
      (State(s.mem.(sessions := left), disk, s.next), if ok then Done else Failed)
  }

  function Revoke(cfg: Config, s: State, session: nat, writeOk: bool): (State, Outcome) {
    if session !in s.mem.sessions then (s, Refused)
    else
      var left := s.mem.sessions - {session};
      var (disk, ok) := WriteSessions(cfg, s.disk, left, writeOk);
      if ok then (State(s.mem.(sessions := left), disk, s.next), Done) else (s.(disk := disk), Failed)
  }

  function Only(sessions: Sessions, current: Option<nat>): Sessions {
    map id | id in sessions && current == Some(id) :: sessions[id]
  }

  function RevokeOthers(cfg: Config, s: State, current: Option<nat>, writeOk: bool): (State, Outcome) {
    var left := Only(s.mem.sessions, current);
    var (disk, ok) := WriteSessions(cfg, s.disk, left, writeOk);
    if ok then (State(s.mem.(sessions := left), disk, s.next), Done) else (s.(disk := disk), Failed)
  }

  function Setup(cfg: Config, s: State, email: string, hash: string, writeOk: bool): (State, Outcome) {
    var previous := s.mem.credential;
    if previous.email != "" || previous.passwordHash != "" then (s, Refused)
    else
      var credential := previous.(email := email, passwordHash := hash);
      var (disk, ok) := WriteCredential(cfg, s.disk, credential, writeOk);
      if ok then (State(s.mem.(credential := credential), disk, s.next), Done) else (s.(disk := disk), Failed)
  }

  /** The inputs of one credential change: what is asked and which of its steps succeed. */
  datatype Change = Change(
    current: Option<nat>, passwordOk: bool, email: string, hash: string, now: int,
    accountOk: bool, rotateOk: bool, sessionsOk: bool, credentialOk: bool, rollbackOk: bool)

  function ChangedCredential(s: State, c: Change): Credential {
    Credential(if c.email != "" then c.email else s.mem.credential.email,
               if c.hash != "" then c.hash else s.mem.credential.passwordHash,
               s.next)
  }

  predicate KeepsCurrent(s: State, c: Change) { c.current.Some? && c.current.value in s.mem.sessions }

  /** The sessions after a change: the current one, moved to the new account and rotated. */
  function ChangedSessions(s: State, c: Change): Sessions {
    if !KeepsCurrent(s, c) then map[]
    else
      var session := s.mem.sessions[c.current.value];
      map[c.current.value := Rotated(session.(accountID := s.next), s.next + 1, s.next + 2, c.now)]
  }

  /** The first random token not drawn by the change. */
  function NextAfter(s: State, c: Change): nat {
    if !c.accountOk then s.next else if KeepsCurrent(s, c) && c.rotateOk then s.next + 3 else s.next + 1
  }

  /** What a completed change hands to the current session, if there is one. */
  function ChangeGrants(cfg: Config, s: State, c: Change): Outcome {
    if !KeepsCurrent(s, c) then Done
    else
      var session := ChangedSessions(s, c)[c.current.value];
      Granted(session.refreshHash.of,
              NewClaims(cfg, ChangedCredential(s, c), session.id, session.accessID, c.now, session.expiresAt))
  }

  function UpdateCredentials(cfg: Config, s: State, c: Change): (State, Outcome) {
    if !c.passwordOk then (s, Refused)
    else if !c.accountOk || (KeepsCurrent(s, c) && !c.rotateOk) then (s.(next := NextAfter(s, c)), Failed)
    else
      var mem := Memory(ChangedSessions(s, c), ChangedCredential(s, c));
      var (disk, sessionsOk) := WriteSessions(cfg, s.disk, mem.sessions, c.sessionsOk);
      if !sessionsOk then (State(s.mem, disk, NextAfter(s, c)), Failed)
      else
        var (both, credentialOk) := WriteCredential(cfg, disk, mem.credential, c.credentialOk);
        if !credentialOk then
          (State(s.mem, WriteSessions(cfg, both, s.mem.sessions, c.rollbackOk).0, NextAfter(s, c)), Failed)
        else (State(mem, both, NextAfter(s, c)), ChangeGrants(cfg, s, c))
  }

  /** The process stops after the change has written the sessions and before the credential
      is written, and starts again at `now`. */
  function CrashInUpdate(cfg: Config, s: State, c: Change, now: int): State {
    if !c.passwordOk || !c.accountOk || (KeepsCurrent(s, c) && !c.rotateOk) then Restart(cfg, s, now)
    else
      var disk := WriteSessions(cfg, s.disk, ChangedSessions(s, c), c.sessionsOk).0;
      State(Load(cfg, disk, now), disk, NextAfter(s, c))
  }

  function Restart(cfg: Config, s: State, now: int): State { s.(mem := Load(cfg, s.disk, now)) }

  datatype Op =
    | DoLogin(seen: Credential, now: int, randomOk: bool, writeOk: bool)
    | DoRefresh(token: Option<RefreshToken>, now: int, randomOk: bool, writeOk: bool)
    | DoAuthenticate(claims: Option<Claims>, now: int, writeOk: bool)
    | DoLogout(session: Option<nat>, writeOk: bool)
    | DoRevoke(id: nat, writeOk: bool)
    | DoRevokeOthers(current: Option<nat>, writeOk: bool)
    | DoSetup(email: string, hash: string, writeOk: bool)
    | DoUpdate(change: Change)
    | DoCrashInUpdate(change: Change, now: int)
    | DoCleanup(now: int)
    | DoRestart(now: int)

  function Step(cfg: Config, s: State, op: Op): (State, Outcome) {
    match op
    case DoLogin(seen, now, randomOk, writeOk) => Login(cfg, s, seen, now, randomOk, writeOk)
    case DoRefresh(token, now, randomOk, writeOk) => Refresh(cfg, s, token, now, randomOk, writeOk)
    case DoAuthenticate(claims, now, writeOk) => Authenticate(cfg, s, claims, now, writeOk)
    case DoLogout(session, writeOk) => Logout(cfg, s, session, writeOk)
    case DoRevoke(id, writeOk) => Revoke(cfg, s, id, writeOk)
    case DoRevokeOthers(current, writeOk) => RevokeOthers(cfg, s, current, writeOk)
    case DoSetup(email, hash, writeOk) => Setup(cfg, s, email, hash, writeOk)
    case DoUpdate(change) => UpdateCredentials(cfg, s, change)
    case DoCrashInUpdate(change, now) => (CrashInUpdate(cfg, s, change, now), Done)
    case DoCleanup(now) => (s.(mem := s.mem.(sessions := Cleanup(s.mem.sessions, now))), Done)
    case DoRestart(now) => (Restart(cfg, s, now), Done)
  }

  function Run(cfg: Config, s: State, ops: seq<Op>): State
    decreases |ops|
  {
    if ops == [] then s else Run(cfg, Step(cfg, s, ops[0]).0, ops[1..])
  }
}
