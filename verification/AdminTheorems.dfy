/** What holds over every run of the administrator's sessions: tokens are used once, expiry
    never moves, and a credential change leaves no half-way state behind. */
module AdminTheorems {
  import opened Wrappers
  import opened AdminSessions

  // ----- The invariant

  ghost predicate WellFormed(sessions: Sessions, next: nat) {
    forall id :: id in sessions ==>
                   var session := sessions[id];
                   session.id == id < next && session.refreshHash.of.sessionID == id
                   && session.refreshHash.of.secret < next && session.accessID < next && session.accountID < next
  }

  /** Both files and the memory hold tokens already drawn, under their own session, and agree
      on when a session ends. */
  ghost predicate Consistent(cfg: Config, s: State) {
    && WellFormed(s.mem.sessions, s.next) && WellFormed(s.disk.sessions, s.next)
    && (!cfg.keepsSessions ==> s.disk.sessions == map[])
    && (cfg.keepsCredential ==> s.disk.credential == s.mem.credential)
    && s.mem.credential.accountID < s.next && s.disk.credential.accountID < s.next && cfg.boot.accountID < s.next
    && (forall id :: id in s.mem.sessions && id in s.disk.sessions ==>
                       s.mem.sessions[id].expiresAt == s.disk.sessions[id].expiresAt)
  }

  /** The credential a login has seen is one that existed. */
  predicate Possible(s: State, op: Op) { op.DoLogin? ==> op.seen.accountID < s.next }

  predicate PossibleRun(cfg: Config, s: State, ops: seq<Op>)
    decreases |ops|
  {
    ops == [] || (Possible(s, ops[0]) && PossibleRun(cfg, Step(cfg, s, ops[0]).0, ops[1..]))
  }

  /** First start: no sessions, and the credential just created. */
  lemma FreshStartIsConsistent(cfg: Config, credential: Credential, next: nat)
    requires credential.accountID < next && cfg.boot.accountID < next
    requires !cfg.keepsCredential ==> credential == cfg.boot
    ensures Consistent(cfg, State(Memory(map[], credential), Disk(map[], credential), next))
  {
  }

  /** The sessions of a change have the new tokens under their own session, and end as before. */
  lemma ChangedWellFormed(s: State, c: Change)
    requires WellFormed(s.mem.sessions, s.next) && c.accountOk && (KeepsCurrent(s, c) ==> c.rotateOk)
    ensures WellFormed(ChangedSessions(s, c), NextAfter(s, c)) && s.next < NextAfter(s, c)
    ensures forall id :: id in ChangedSessions(s, c) ==>
                           id in s.mem.sessions && ChangedSessions(s, c)[id].expiresAt == s.mem.sessions[id].expiresAt
  {
  }

  lemma UpdateConsistent(cfg: Config, s: State, c: Change)
    requires Consistent(cfg, s)
    ensures Consistent(cfg, UpdateCredentials(cfg, s, c).0) && s.next <= UpdateCredentials(cfg, s, c).0.next
  {
    hide NewClaims, ChangedSessions, NextAfter, KeepsCurrent;
    if c.passwordOk && c.accountOk && (KeepsCurrent(s, c) ==> c.rotateOk) {
      ChangedWellFormed(s, c);
    } else {
      FailureDrawsTokens(s, c);
    }
  }

  lemma FailureDrawsTokens(s: State, c: Change)
    ensures s.next <= NextAfter(s, c)
  {
  }

  lemma CrashConsistent(cfg: Config, s: State, c: Change, now: int)
    requires Consistent(cfg, s)
    ensures Consistent(cfg, CrashInUpdate(cfg, s, c, now)) && s.next <= CrashInUpdate(cfg, s, c, now).next
  {
    hide NewClaims;
  }

  lemma RefreshConsistent(cfg: Config, s: State, op: Op)
    requires Consistent(cfg, s) && op.DoRefresh?
    ensures Consistent(cfg, Step(cfg, s, op).0) && s.next <= Step(cfg, s, op).0.next
  {
    hide NewClaims, Login, UpdateCredentials, CrashInUpdate, Authenticate;
  }

  lemma AuthenticateConsistent(cfg: Config, s: State, op: Op)
    requires Consistent(cfg, s) && op.DoAuthenticate?
    ensures Consistent(cfg, Step(cfg, s, op).0) && s.next <= Step(cfg, s, op).0.next
  {
    hide NewClaims, ClaimsCurrent, Login, UpdateCredentials, CrashInUpdate, Refresh;
  }

  lemma StepConsistent(cfg: Config, s: State, op: Op)
    requires Consistent(cfg, s) && Possible(s, op)
    ensures Consistent(cfg, Step(cfg, s, op).0) && s.next <= Step(cfg, s, op).0.next
  {
    hide NewClaims, UpdateCredentials, CrashInUpdate, Refresh, Authenticate;
    match op
    case DoUpdate(change) => UpdateConsistent(cfg, s, change);
    case DoCrashInUpdate(change, now) => CrashConsistent(cfg, s, change, now);
    case DoRefresh(_, _, _, _) => RefreshConsistent(cfg, s, op);
    case DoAuthenticate(_, _, _) => AuthenticateConsistent(cfg, s, op);
    case _ =>
  }

  lemma {:induction false} RunConsistent(cfg: Config, s: State, ops: seq<Op>)
    requires Consistent(cfg, s) && PossibleRun(cfg, s, ops)
    ensures Consistent(cfg, Run(cfg, s, ops))
    decreases |ops|
  {
    hide Step, Consistent;
    if ops != [] {
      StepConsistent(cfg, s, ops[0]);
      RunConsistent(cfg, Step(cfg, s, ops[0]).0, ops[1..]);
    }
  }

  // ----- Tokens that are gone

  ghost predicate NoneHas(sessions: Sessions, token: RefreshToken) {
    forall id :: id in sessions ==> sessions[id].refreshHash != Digest(token)
  }

  /** The token was drawn once and no session anywhere answers to it. */
  ghost predicate Dead(s: State, token: RefreshToken) {
    token.secret < s.next && NoneHas(s.mem.sessions, token) && NoneHas(s.disk.sessions, token)
  }

  /** The access token was drawn once and its session has another one by now. */
  ghost predicate DeadAccess(s: State, id: nat, tokenID: nat) {
    && tokenID < s.next
    && (id in s.mem.sessions ==> s.mem.sessions[id].accessID != tokenID)
    && (id in s.disk.sessions ==> s.disk.sessions[id].accessID != tokenID)
  }

  /** The session existed and exists nowhere any more. */
  ghost predicate Gone(s: State, id: nat) {
    id < s.next && id !in s.mem.sessions && id !in s.disk.sessions
  }

  /** `x` carries on the session `y`: it ends when `y` does, and its two tokens are those of
      `y` or both newly drawn. */
  predicate CarriesOn(x: Session, y: Session, next: nat) {
    && x.expiresAt == y.expiresAt
    && ((x.refreshHash == y.refreshHash && x.accessID == y.accessID)
        || (x.refreshHash.of.secret >= next && x.accessID >= next))
  }

  /** Where a session of a later state comes from: the memory, the file, or nowhere. */
  ghost predicate Descends(s: State, id: nat, x: Session) {
    || (id in s.mem.sessions && CarriesOn(x, s.mem.sessions[id], s.next))
    || (id in s.disk.sessions && CarriesOn(x, s.disk.sessions[id], s.next))
    || (id >= s.next && x.refreshHash.of.secret >= s.next && x.accessID >= s.next)
  }

  ghost predicate AllDescend(s: State, sessions: Sessions) {
    forall id :: id in sessions ==> Descends(s, id, sessions[id])
  }

  lemma UpdateDescends(cfg: Config, s: State, c: Change, now: int)
    requires Consistent(cfg, s)
    ensures var t := UpdateCredentials(cfg, s, c).0; AllDescend(s, t.mem.sessions) && AllDescend(s, t.disk.sessions)
    ensures var t := CrashInUpdate(cfg, s, c, now); AllDescend(s, t.mem.sessions) && AllDescend(s, t.disk.sessions)
    ensures s.next <= UpdateCredentials(cfg, s, c).0.next && s.next <= CrashInUpdate(cfg, s, c, now).next
  {
    hide NewClaims;
  }

  lemma SessionStepDescends(cfg: Config, s: State, op: Op)
    requires Consistent(cfg, s) && (op.DoRefresh? || op.DoAuthenticate?)
    ensures var t := Step(cfg, s, op).0;
            AllDescend(s, t.mem.sessions) && AllDescend(s, t.disk.sessions) && s.next <= t.next
  {
    hide NewClaims, ClaimsCurrent, Login, UpdateCredentials, CrashInUpdate;
  }

  /** No step invents a session with tokens already drawn, or moves an expiry. */
  lemma StepDescends(cfg: Config, s: State, op: Op)
    requires Consistent(cfg, s)
    ensures var t := Step(cfg, s, op).0; AllDescend(s, t.mem.sessions) && AllDescend(s, t.disk.sessions)
    ensures s.next <= Step(cfg, s, op).0.next
  {
    hide NewClaims, UpdateCredentials, CrashInUpdate, Refresh, Authenticate;
    if op.DoUpdate? || op.DoCrashInUpdate? {
      UpdateDescends(cfg, s, op.change, if op.DoUpdate? then 0 else op.now);
    } else if op.DoRefresh? || op.DoAuthenticate? {
      SessionStepDescends(cfg, s, op);
    }
  }

  lemma StepKeepsDead(cfg: Config, s: State, op: Op, token: RefreshToken)
    requires Consistent(cfg, s) && Dead(s, token)
    ensures Dead(Step(cfg, s, op).0, token)
  {
    hide Step, Consistent;
    StepDescends(cfg, s, op);
  }

  lemma StepKeepsDeadAccess(cfg: Config, s: State, op: Op, id: nat, tokenID: nat)
    requires Consistent(cfg, s) && DeadAccess(s, id, tokenID)
    ensures DeadAccess(Step(cfg, s, op).0, id, tokenID)
  {
    hide Step, Consistent;
    StepDescends(cfg, s, op);
  }

  lemma StepKeepsGone(cfg: Config, s: State, op: Op, id: nat)
    requires Consistent(cfg, s) && Gone(s, id)
    ensures Gone(Step(cfg, s, op).0, id)
  {
    hide Step, Consistent;
    StepDescends(cfg, s, op);
  }

  lemma {:induction false} RunKeepsDead(cfg: Config, s: State, ops: seq<Op>, token: RefreshToken)
    requires Consistent(cfg, s) && PossibleRun(cfg, s, ops) && Dead(s, token)
    ensures Dead(Run(cfg, s, ops), token)
    decreases |ops|
  {
    hide Step, Dead, Consistent;
    if ops != [] {
      StepConsistent(cfg, s, ops[0]);
      StepKeepsDead(cfg, s, ops[0], token);
      RunKeepsDead(cfg, Step(cfg, s, ops[0]).0, ops[1..], token);
    }
  }

  lemma {:induction false} RunKeepsDeadAccess(cfg: Config, s: State, ops: seq<Op>, id: nat, tokenID: nat)
    requires Consistent(cfg, s) && PossibleRun(cfg, s, ops) && DeadAccess(s, id, tokenID)
    ensures DeadAccess(Run(cfg, s, ops), id, tokenID)
    decreases |ops|
  {
    hide Step, DeadAccess, Consistent;
    if ops != [] {
      StepConsistent(cfg, s, ops[0]);
      StepKeepsDeadAccess(cfg, s, ops[0], id, tokenID);
      RunKeepsDeadAccess(cfg, Step(cfg, s, ops[0]).0, ops[1..], id, tokenID);
    }
  }

  lemma {:induction false} RunKeepsGone(cfg: Config, s: State, ops: seq<Op>, id: nat)
    requires Consistent(cfg, s) && PossibleRun(cfg, s, ops) && Gone(s, id)
    ensures Gone(Run(cfg, s, ops), id)
    decreases |ops|
  {
    hide Step, Gone, Consistent;
    if ops != [] {
      StepConsistent(cfg, s, ops[0]);
      StepKeepsGone(cfg, s, ops[0], id);
      RunKeepsGone(cfg, Step(cfg, s, ops[0]).0, ops[1..], id);
    }
  }

  lemma DeadIsRefused(cfg: Config, s: State, token: RefreshToken, now: int, randomOk: bool, writeOk: bool)
    requires Dead(s, token)
    ensures Refresh(cfg, s, Some(token), now, randomOk, writeOk).1 == Refused
  {
  }

  // ----- Refresh tokens are used once

  lemma ExchangeKills(cfg: Config, s: State, token: RefreshToken, now: int, randomOk: bool, writeOk: bool)
    requires Consistent(cfg, s)
    requires Refresh(cfg, s, Some(token), now, randomOk, writeOk).1.Granted?
    ensures var r := Refresh(cfg, s, Some(token), now, randomOk, writeOk);
            && Dead(r.0, token) && DeadAccess(r.0, token.sessionID, s.mem.sessions[token.sessionID].accessID)
            && Accepts(r.0.mem, r.1.token, now)
  {
  }

  /** Over any run, with any failed writes and restarts, a refresh token that was exchanged
      once is refused ever after, and so is the access token it replaced. */
  lemma RefreshOnce(cfg: Config, s: State, before: seq<Op>, token: RefreshToken, first: Op, after: seq<Op>, again: Op)
    requires Consistent(cfg, s) && PossibleRun(cfg, s, before)
    requires first.DoRefresh? && first.token == Some(token) && again.DoRefresh? && again.token == Some(token)
    requires Step(cfg, Run(cfg, s, before), first).1.Granted?
    requires PossibleRun(cfg, Step(cfg, Run(cfg, s, before), first).0, after)
    ensures var used := Step(cfg, Run(cfg, s, before), first).0;
            Step(cfg, Run(cfg, used, after), again).1 == Refused
  {
    hide Consistent, Refresh, Dead, DeadAccess;
    RunConsistent(cfg, s, before);
    var middle := Run(cfg, s, before);
    ExchangeKills(cfg, middle, token, first.now, first.randomOk, first.writeOk);
    StepConsistent(cfg, middle, first);
    var used := Step(cfg, middle, first).0;
    RunKeepsDead(cfg, used, after, token);
    DeadIsRefused(cfg, Run(cfg, used, after), token, again.now, again.randomOk, again.writeOk);
  }

  /** The access token that a refresh replaced is refused ever after. */
  lemma ReplacedAccessIsRefused(cfg: Config, s: State, first: Op, after: seq<Op>, claims: Claims, now: int,
      writeOk: bool)
    requires Consistent(cfg, s) && first.DoRefresh? && Step(cfg, s, first).1.Granted?
    requires PossibleRun(cfg, Step(cfg, s, first).0, after)
    requires AcceptsAccess(s.mem, claims, first.now)
    requires first.token == Some(s.mem.sessions[claims.sessionID].refreshHash.of)
    ensures var later := Run(cfg, Step(cfg, s, first).0, after);
            Authenticate(cfg, later, Some(claims), now, writeOk).1 == Refused
  {
    hide Refresh, NewClaims;
    var token := first.token.value;
    ExchangeKills(cfg, s, token, first.now, first.randomOk, first.writeOk);
    StepConsistent(cfg, s, first);
    RunKeepsDeadAccess(cfg, Step(cfg, s, first).0, after, claims.sessionID, claims.tokenID);
  }

  // ----- Expiry never moves

  ghost predicate ExpiryIn(s: State, id: nat, expiry: int) {
    || (id in s.mem.sessions && s.mem.sessions[id].expiresAt == expiry)
    || (id in s.disk.sessions && s.disk.sessions[id].expiresAt == expiry)
  }

  /** Every session of the later state that existed in the earlier one ends when it did. */
  ghost predicate SameExpiry(s: State, t: State) {
    && s.next <= t.next
    && (forall id :: id in t.mem.sessions && id < s.next ==> ExpiryIn(s, id, t.mem.sessions[id].expiresAt))
    && (forall id :: id in t.disk.sessions && id < s.next ==> ExpiryIn(s, id, t.disk.sessions[id].expiresAt))
  }

  lemma StepKeepsExpiry(cfg: Config, s: State, op: Op)
    requires Consistent(cfg, s)
    ensures SameExpiry(s, Step(cfg, s, op).0)
  {
    hide Step, Consistent;
    StepDescends(cfg, s, op);
  }

  lemma {:induction false} ExpiryNeverMoves(cfg: Config, s: State, ops: seq<Op>)
    requires Consistent(cfg, s) && PossibleRun(cfg, s, ops)
    ensures SameExpiry(s, Run(cfg, s, ops))
    decreases |ops|
  {
    hide Step, Consistent;
    if ops != [] {
      var next := Step(cfg, s, ops[0]).0;
      StepConsistent(cfg, s, ops[0]);
      StepKeepsExpiry(cfg, s, ops[0]);
      ExpiryNeverMoves(cfg, next, ops[1..]);
    }
  }

  /** Whatever an operation grants at `now` never outlives its session: the access token is
      good for at most its lifetime and at most until the session ends. */
  lemma AccessNeverOutlivesSession(cfg: Config, s: State, op: Op)
    requires Consistent(cfg, s) && Step(cfg, s, op).1.Granted?
    ensures var (t, granted) := Step(cfg, s, op);
            var id := granted.claims.sessionID;
            && id in t.mem.sessions && t.mem.sessions[id].accessID == granted.claims.tokenID
            && granted.claims.expiresAt * NANOS_PER_SECOND <= t.mem.sessions[id].expiresAt
            && granted.claims.expiresAt * NANOS_PER_SECOND
               <= (if op.DoUpdate? then op.change.now else op.now) + cfg.accessTTL
  {
  }

  // ----- A credential change over two files

  predicate Changed(r: Outcome) { r.Done? || r.Granted? }

  /** A change that reports an error has changed nothing in memory and not the credential
      file, and a restart then accepts no token that was not accepted before. */
  lemma FailedChangeIsHarmless(cfg: Config, s: State, c: Change, token: RefreshToken, now: int, at: int)
    requires Consistent(cfg, s) && !Changed(UpdateCredentials(cfg, s, c).1)
    ensures var t := UpdateCredentials(cfg, s, c).0;
            && t.mem == s.mem && t.disk.credential == s.disk.credential
            && (Accepts(Load(cfg, t.disk, now), token, at) ==>
                  Accepts(s.mem, token, at) || Accepts(Load(cfg, s.disk, now), token, at))
  {
    hide NewClaims;
  }

  /** A crash between the two writes leaves the old credential in force and accepts no token
      that a restart would not have accepted before; if the sessions had been written, none. */
  lemma CrashedChangeIsHarmless(cfg: Config, s: State, c: Change, token: RefreshToken, now: int, at: int)
    requires Consistent(cfg, s)
    ensures var t := CrashInUpdate(cfg, s, c, now);
            && t.mem.credential == Load(cfg, s.disk, now).credential
            && (Accepts(t.mem, token, at) ==> Accepts(Load(cfg, s.disk, now), token, at))
            && (t.disk.sessions != s.disk.sessions ==> !Accepts(t.mem, token, at))
  {
    hide NewClaims;
  }

  /** After a successful change the only refresh token accepted is the one just handed to the
      current session; every earlier one is dead. RestartAfterChange says the same of a
      restart. */
  lemma SuccessfulChange(cfg: Config, s: State, c: Change)
    requires Consistent(cfg, s) && Changed(UpdateCredentials(cfg, s, c).1)
    ensures var (t, granted) := UpdateCredentials(cfg, s, c);
            && t.mem.credential == ChangedCredential(s, c)
            && (cfg.keepsCredential ==> t.disk.credential == t.mem.credential)
            && (forall token: RefreshToken :: token.secret < s.next ==> Dead(t, token))
            && (forall token, at :: Accepts(t.mem, token, at) ==> granted.Granted? && token == granted.token)
  {
    hide NewClaims;
  }

  lemma RestartAfterChange(cfg: Config, s: State, c: Change, token: RefreshToken, now: int, at: int)
    requires Consistent(cfg, s) && Changed(UpdateCredentials(cfg, s, c).1)
    requires Accepts(Load(cfg, UpdateCredentials(cfg, s, c).0.disk, now), token, at)
    ensures UpdateCredentials(cfg, s, c).1.Granted? && token == UpdateCredentials(cfg, s, c).1.token
  {
    hide NewClaims;
  }

  /** So no refresh token handed out before a successful change is ever exchanged again. */
  lemma ChangeEndsOldTokens(cfg: Config, s: State, c: Change, after: seq<Op>, token: RefreshToken, again: Op)
    requires Consistent(cfg, s) && Changed(UpdateCredentials(cfg, s, c).1) && token.secret < s.next
    requires PossibleRun(cfg, UpdateCredentials(cfg, s, c).0, after)
    requires again.DoRefresh? && again.token == Some(token)
    ensures Step(cfg, Run(cfg, UpdateCredentials(cfg, s, c).0, after), again).1 == Refused
  {
    hide Consistent, UpdateCredentials, Dead, Refresh;
    var t := UpdateCredentials(cfg, s, c).0;
    SuccessfulChange(cfg, s, c);
    UpdateConsistent(cfg, s, c);
    RunKeepsDead(cfg, t, after, token);
    DeadIsRefused(cfg, Run(cfg, t, after), token, again.now, again.randomOk, again.writeOk);
  }

  // ----- Access tokens across a credential change

  /** A change that reports an error lets in, after a restart, no access token that was not let
      in before it. */
  lemma FailedChangeGrantsNoAccess(cfg: Config, s: State, c: Change, claims: Claims, now: int, at: int)
    requires Consistent(cfg, s) && !Changed(UpdateCredentials(cfg, s, c).1)
    ensures AcceptsAccess(Load(cfg, UpdateCredentials(cfg, s, c).0.disk, now), claims, at) ==>
              AcceptsAccess(s.mem, claims, at) || AcceptsAccess(Load(cfg, s.disk, now), claims, at)
  {
    hide NewClaims, ClaimsCurrent;
  }

  /** Nor does a crash in it; if the sessions had been written, none at all. */
  lemma CrashedChangeGrantsNoAccess(cfg: Config, s: State, c: Change, claims: Claims, now: int, at: int)
    requires Consistent(cfg, s)
    ensures var t := CrashInUpdate(cfg, s, c, now);
            && (AcceptsAccess(t.mem, claims, at) ==> AcceptsAccess(Load(cfg, s.disk, now), claims, at))
            && (t.disk.sessions != s.disk.sessions ==> !AcceptsAccess(t.mem, claims, at))
  {
    hide NewClaims, ClaimsCurrent;
  }

  /** After a successful change every earlier access token is dead, and the only one let in, with
      or without a restart, is the one handed to the current session. */
  lemma ChangeReplacesAccess(cfg: Config, s: State, c: Change, claims: Claims, now: int, at: int)
    requires Consistent(cfg, s) && Changed(UpdateCredentials(cfg, s, c).1)
    ensures var (t, granted) := UpdateCredentials(cfg, s, c);
            && (claims.tokenID < s.next && claims.sessionID < s.next ==>
                  DeadAccess(t, claims.sessionID, claims.tokenID))
            && (AcceptsAccess(t.mem, claims, at) || AcceptsAccess(Load(cfg, t.disk, now), claims, at) ==>
                  && granted.Granted? && claims.tokenID == granted.claims.tokenID
                  && claims.sessionID == granted.claims.sessionID)
  {
    hide ClaimsCurrent;
  }

  lemma DeadAccessIsRefused(cfg: Config, s: State, claims: Claims, now: int, writeOk: bool)
    requires DeadAccess(s, claims.sessionID, claims.tokenID)
    ensures Authenticate(cfg, s, Some(claims), now, writeOk).1 == Refused
  {
  }

  /** So no access token from before a successful change is let in in any later run. */
  lemma ChangeEndsOldAccess(cfg: Config, s: State, c: Change, after: seq<Op>, claims: Claims, now: int, writeOk: bool)
    requires Consistent(cfg, s) && Changed(UpdateCredentials(cfg, s, c).1)
    requires claims.tokenID < s.next && claims.sessionID < s.next
    requires PossibleRun(cfg, UpdateCredentials(cfg, s, c).0, after)
    ensures Authenticate(cfg, Run(cfg, UpdateCredentials(cfg, s, c).0, after), Some(claims), now, writeOk).1 == Refused
  {
    hide Consistent, UpdateCredentials, DeadAccess, Authenticate, AcceptsAccess;
    var t := UpdateCredentials(cfg, s, c).0;
    ChangeReplacesAccess(cfg, s, c, claims, now, now);
    UpdateConsistent(cfg, s, c);
    RunKeepsDeadAccess(cfg, t, after, claims.sessionID, claims.tokenID);
    DeadAccessIsRefused(cfg, Run(cfg, t, after), claims, now, writeOk);
  }

  // ----- Ending sessions

  /** The operation asks for the end of the session. */
  predicate Ends(op: Op, id: nat) {
    match op
    case DoLogout(session, _) => session == Some(id)
    case DoRevoke(session, _) => session == id
    case DoRevokeOthers(current, _) => current != Some(id)
    case _ => false
  }

  /** A logout or a revocation that reports success ends the session for good, across any
      later run and restart, also when only the file still had it. */
  lemma EndedStaysEnded(cfg: Config, s: State, op: Op, id: nat, after: seq<Op>)
    requires Consistent(cfg, s) && id < s.next && Step(cfg, s, op).1 == Done
    requires Ends(op, id)
    requires PossibleRun(cfg, Step(cfg, s, op).0, after)
    ensures Gone(Run(cfg, Step(cfg, s, op).0, after), id)
  {
    hide NewClaims, UpdateCredentials, CrashInUpdate, Refresh, Authenticate, Login;
    EndsAtOnce(cfg, s, op, id);
    StepConsistent(cfg, s, op);
    RunKeepsGone(cfg, Step(cfg, s, op).0, after, id);
  }

  lemma EndsAtOnce(cfg: Config, s: State, op: Op, id: nat)
    requires Consistent(cfg, s) && id < s.next && Step(cfg, s, op).1 == Done
    requires Ends(op, id)
    ensures Gone(Step(cfg, s, op).0, id)
  {
    hide NewClaims, UpdateCredentials, CrashInUpdate, Refresh, Authenticate, Login;
  }

  /** A logout whose write fails ends the session in memory only: a restart brings it back
      exactly when the file still has it unexpired. */
  lemma FailedLogoutComesBack(cfg: Config, s: State, id: nat, now: int)
    requires Consistent(cfg, s) && Logout(cfg, s, Some(id), false).1 == Failed
    ensures var t := Logout(cfg, s, Some(id), false).0;
            && id !in t.mem.sessions
            && (id in Restart(cfg, t, now).mem.sessions <==>
                  id in s.disk.sessions && now < s.disk.sessions[id].expiresAt)
  {
  }

  // ----- How long a granted access token is good

  function EarlierOf(a: int, b: int): int { if a < b then a else b }

  /** The moment of a granting operation. */
  function GrantedAt(op: Op): int
    requires op.DoLogin? || op.DoRefresh? || op.DoUpdate?
  {
    if op.DoUpdate? then op.change.now else op.now
  }

  lemma OnlyTheseGrant(cfg: Config, s: State, op: Op)
    requires Step(cfg, s, op).1.Granted?
    ensures op.DoLogin? || op.DoRefresh? || op.DoUpdate?
  {
  }

  /** From the moment it is granted an access token is let in until the second in which its
      lifetime or its session ends, whichever is earlier, and no longer. */
  lemma GrantedAccessIsLetIn(cfg: Config, s: State, op: Op, at: int)
    requires Consistent(cfg, s) && Step(cfg, s, op).1.Granted?
    requires (op.DoLogin? || op.DoRefresh? || op.DoUpdate?) && GrantedAt(op) >= NANOS_PER_SECOND && at >= GrantedAt(op)
    requires op.DoLogin? ==> op.seen == s.mem.credential
    ensures var (t, granted) := Step(cfg, s, op);
            && granted.claims.sessionID in t.mem.sessions
            && var ends := EarlierOf(GrantedAt(op) + cfg.accessTTL, t.mem.sessions[granted.claims.sessionID].expiresAt);
               AcceptsAccess(t.mem, granted.claims, at) <==> at / NANOS_PER_SECOND < ends / NANOS_PER_SECOND
  {
  }

  /** A login opens a session of its own that lasts just as long as sessions do. */
  lemma LoginDecides(cfg: Config, s: State, seen: Credential, now: int, randomOk: bool, writeOk: bool)
    requires Consistent(cfg, s)
    ensures var (t, r) := Login(cfg, s, seen, now, randomOk, writeOk);
            && (r.Granted? <==> randomOk && (writeOk || !cfg.keepsSessions))
            && (!r.Granted? ==> r == Failed && t.disk == s.disk)
            && (r.Granted? ==>
                  var id := r.token.sessionID;
                  && id !in s.mem.sessions && id !in s.disk.sessions && id in t.mem.sessions
                  && r.claims.sessionID == id && t.mem.sessions[id].expiresAt == now + cfg.sessionTTL
                  && t.mem.sessions[id].accountID == seen.accountID
                  && t.mem.sessions[id].createdAt == t.mem.sessions[id].lastSeenAt == now)
  {
  }

  /** What ends a session reports success if and only if it could be stored, and a failed
      revocation leaves the memory as it was. */
  lemma EndingDecides(cfg: Config, s: State, id: nat, current: Option<nat>, writeOk: bool)
    requires Consistent(cfg, s)
    ensures var stored := writeOk || !cfg.keepsSessions;
            && (Logout(cfg, s, Some(id), writeOk).1 == if stored then Done else Failed)
            && id !in Logout(cfg, s, Some(id), writeOk).0.mem.sessions
            && Logout(cfg, s, None, writeOk) == (s, Done)
            && (Revoke(cfg, s, id, writeOk).1
                == if id !in s.mem.sessions then Refused else if stored then Done else Failed)
            && (Revoke(cfg, s, id, writeOk).1 != Done ==> Revoke(cfg, s, id, writeOk).0 == s)
            && (RevokeOthers(cfg, s, current, writeOk).1 == if stored then Done else Failed)
            && (!stored ==> RevokeOthers(cfg, s, current, writeOk).0 == s)
  {
  }

  /** The visit of a session is noted when the last one is five minutes ago and it can be stored. */
  lemma VisitIsNoted(cfg: Config, s: State, claims: Claims, now: int, writeOk: bool)
    requires Consistent(cfg, s) && AcceptsAccess(s.mem, claims, now)
    ensures var t, id := Authenticate(cfg, s, Some(claims), now, writeOk).0, claims.sessionID;
            && id in t.mem.sessions
            && t.mem.sessions[id].lastSeenAt
               == if now - s.mem.sessions[id].lastSeenAt >= 300 * NANOS_PER_SECOND && (writeOk || !cfg.keepsSessions)
                  then now else s.mem.sessions[id].lastSeenAt
  {
  }

  // ----- The account itself

  predicate AccountSet(c: Credential) { c.email != "" || c.passwordHash != "" }

  /** The account can be set up exactly when there is none yet and it can be stored, and that is
      all that changes. */
  lemma SetupDecides(cfg: Config, s: State, email: string, hash: string, writeOk: bool)
    requires Consistent(cfg, s)
    ensures var (t, r) := Setup(cfg, s, email, hash, writeOk);
            && (r == Refused <==> AccountSet(s.mem.credential))
            && (r == Done <==> !AccountSet(s.mem.credential) && (writeOk || !cfg.keepsCredential))
            && (r != Done ==> r in {Refused, Failed} && t == s)
            && (r == Done ==> t.mem.credential == Credential(email, hash, s.mem.credential.accountID))
            && t.mem.sessions == s.mem.sessions && t.disk.sessions == s.disk.sessions && t.next == s.next
  {
  }

  /** A credential change is refused exactly without the password and made exactly when all its
      steps succeed; it sets what was asked for, under a new account. */
  lemma ChangeDecides(cfg: Config, s: State, c: Change)
    requires Consistent(cfg, s)
    ensures var (t, r) := UpdateCredentials(cfg, s, c);
            var keeps := c.current.Some? && c.current.value in s.mem.sessions;
            && (r == Refused <==> !c.passwordOk)
            && (Changed(r) <==>
                  && c.passwordOk && c.accountOk && (keeps ==> c.rotateOk)
                  && (c.sessionsOk || !cfg.keepsSessions) && (c.credentialOk || !cfg.keepsCredential))
            && (Changed(r) ==> (r.Granted? <==> keeps))
            && (!Changed(r) && c.rollbackOk ==> t.disk.sessions in {s.disk.sessions, s.mem.sessions})
            && (Changed(r) ==>
                  var before, after := s.mem.credential, t.mem.credential;
                  && after.email == (if c.email != "" then c.email else before.email)
                  && after.passwordHash == (if c.hash != "" then c.hash else before.passwordHash)
                  && after.accountID >= s.next)
            && (Changed(r) && keeps ==>
                  var id := c.current.value;
                  && r.token.sessionID == id && t.mem.sessions.Keys == {id}
                  && t.mem.sessions[id].expiresAt == s.mem.sessions[id].expiresAt
                  && t.mem.sessions[id].createdAt == s.mem.sessions[id].createdAt)
  {
    hide NewClaims;
  }

  lemma StepKeepsAccount(cfg: Config, s: State, op: Op)
    requires Consistent(cfg, s) && cfg.keepsCredential && AccountSet(s.mem.credential)
    ensures AccountSet(Step(cfg, s, op).0.mem.credential)
  {
    hide NewClaims, ChangedSessions;
  }

  /** So an account is set up at most once: over any run, no setup succeeds after one has. */
  lemma {:induction false} SetupOnce(cfg: Config, s: State, ops: seq<Op>, email: string, hash: string, writeOk: bool)
    requires Consistent(cfg, s) && cfg.keepsCredential && AccountSet(s.mem.credential) && PossibleRun(cfg, s, ops)
    ensures Setup(cfg, Run(cfg, s, ops), email, hash, writeOk).1 == Refused
    decreases |ops|
  {
    hide Step, Consistent, AccountSet;
    if ops == [] {
      SetupDecides(cfg, s, email, hash, writeOk);
    } else {
      StepConsistent(cfg, s, ops[0]);
      StepKeepsAccount(cfg, s, ops[0]);
      SetupOnce(cfg, Step(cfg, s, ops[0]).0, ops[1..], email, hash, writeOk);
    }
  }

  // ----- What stays valid

  /** A refresh token is exchanged exactly when its session lasts, belongs to the account in force
      and has this very token, and the new tokens can be drawn and stored. The session then has
      been seen, and is otherwise as before; an exchange that fails spends nothing. */
  lemma RefreshDecides(cfg: Config, s: State, token: RefreshToken, now: int, randomOk: bool, writeOk: bool)
    requires Consistent(cfg, s)
    ensures var (t, r) := Refresh(cfg, s, Some(token), now, randomOk, writeOk);
            var id := token.sessionID;
            var good := && id in s.mem.sessions && now < s.mem.sessions[id].expiresAt
                        && s.mem.sessions[id].accountID == s.mem.credential.accountID
                        && s.mem.sessions[id].refreshHash.of == token;
            && (r == Refused <==> !good)
            && (r.Granted? <==> good && randomOk && (writeOk || !cfg.keepsSessions))
            && (r.Granted? ==>
                  var before, after := s.mem.sessions[id], t.mem.sessions[id];
                  && r.token == after.refreshHash.of && r.token != token && r.token.sessionID == id
                  && after.lastSeenAt == now && after.createdAt == before.createdAt
                  && after.expiresAt == before.expiresAt && after.accountID == before.accountID)
            && (!r.Granted? ==> t.disk == s.disk)
            && (!r.Granted? ==>
                  forall other: RefreshToken, at :: at >= now ==>
                    (Accepts(t.mem, other, at) <==> Accepts(s.mem, other, at)))
            && Refresh(cfg, s, None, now, randomOk, writeOk) == (s, Refused)
  {
    hide NewClaims;
  }

  /** An access token is let in exactly when its times are good, and it is made out to the account
      in force and is its session's current one, whether or not the visit could be noted down; and
      letting it in spends no token. */
  lemma AuthenticateDecides(cfg: Config, s: State, claims: Claims, now: int, writeOk: bool)
    requires Consistent(cfg, s)
    ensures var (t, r) := Authenticate(cfg, s, Some(claims), now, writeOk);
            var id, email := claims.sessionID, s.mem.credential.email;
            && r in {Done, Refused}
            && (r == Done <==>
                  && 0 < claims.issuedAt < claims.expiresAt && now / NANOS_PER_SECOND < claims.expiresAt
                  && claims.issuedAt <= (now + 60 * NANOS_PER_SECOND) / NANOS_PER_SECOND
                  && claims.subject == (if email == "" then "administrator" else email)
                  && id in s.mem.sessions && now < s.mem.sessions[id].expiresAt
                  && s.mem.sessions[id].accessID == claims.tokenID
                  && s.mem.sessions[id].accountID == s.mem.credential.accountID)
            && (forall token: RefreshToken, at :: at >= now ==>
                    (Accepts(t.mem, token, at) <==> Accepts(s.mem, token, at)))
            && Authenticate(cfg, s, None, now, writeOk) == (s, Refused)
  {
  }

  /** What a granted access token says: who, which session, which token, and since when. */
  lemma GrantSays(cfg: Config, s: State, op: Op)
    requires Consistent(cfg, s) && Step(cfg, s, op).1.Granted?
    requires op.DoLogin? || op.DoRefresh? || op.DoUpdate?
    ensures var (t, granted) := Step(cfg, s, op);
            var id, email := granted.claims.sessionID, if op.DoLogin? then op.seen.email else t.mem.credential.email;
            && id == granted.token.sessionID && id in t.mem.sessions
            && granted.claims.tokenID == t.mem.sessions[id].accessID
            && t.mem.sessions[id].refreshHash.of == granted.token
            && granted.claims.subject == (if email == "" then "administrator" else email)
            && granted.claims.issuedAt == GrantedAt(op) / NANOS_PER_SECOND
  {
  }

  /** The moment an operation looks at the clock; `None` if it does not. */
  function MomentOf(op: Op): Option<int> {
    match op
    case DoLogin(_, now, _, _) => Some(now)
    case DoRefresh(_, now, _, _) => Some(now)
    case DoAuthenticate(_, now, _) => Some(now)
    case DoCleanup(now) => Some(now)
    case _ => None
  }

  /** Signing in, refreshing, visiting and signing out touch one session only: any other
      unexpired session keeps both its tokens. */
  lemma OthersAreLeftAlone(cfg: Config, s: State, op: Op, id: nat)
    requires Consistent(cfg, s) && id in s.mem.sessions && !Ends(op, id)
    requires !op.DoUpdate? && !op.DoCrashInUpdate? && !op.DoRestart?
    requires op.DoRefresh? && op.token.Some? ==> op.token.value.sessionID != id
    requires MomentOf(op).Some? ==> MomentOf(op).value < s.mem.sessions[id].expiresAt
    ensures var t := Step(cfg, s, op).0;
            && id in t.mem.sessions
            && t.mem.sessions[id].(lastSeenAt := 0) == s.mem.sessions[id].(lastSeenAt := 0)
  {
    hide NewClaims, UpdateCredentials, CrashInUpdate;
  }

  /** With both files kept, a restart changes nothing about the tokens just granted: they are
      accepted after it exactly when they would have been without it, until the session ends. */
  lemma GrantSurvivesRestart(cfg: Config, s: State, op: Op, now: int, at: int)
    requires Consistent(cfg, s) && Step(cfg, s, op).1.Granted?
    requires cfg.keepsSessions && cfg.keepsCredential && at >= now
    ensures var (t, granted) := Step(cfg, s, op);
            && granted.token.sessionID in t.mem.sessions
            && (Accepts(Load(cfg, t.disk, now), granted.token, at) <==> Accepts(t.mem, granted.token, at))
  {
    hide NewClaims, CrashInUpdate;
  }

  /** A granted token is accepted until its session ends, unless the account was replaced
      while a login was under way. */
  lemma GrantIsAccepted(cfg: Config, s: State, op: Op, at: int)
    requires Consistent(cfg, s) && Step(cfg, s, op).1.Granted?
    ensures var (t, granted) := Step(cfg, s, op);
            && granted.token.sessionID in t.mem.sessions
            && (Accepts(t.mem, granted.token, at) <==>
                  && at < t.mem.sessions[granted.token.sessionID].expiresAt
                  && (op.DoLogin? ==> op.seen.accountID == s.mem.credential.accountID))
  {
    hide NewClaims, CrashInUpdate;
  }
}
