/** The services as they are written: each method works on the tables step by step, and is proved to
 *  do to the tables, and to answer, exactly what the model of its request says. */
module AuthServices {
  import opened Wrappers
  import opened AuthModel
  import opened AuthEvolution
  import opened AuthActionTokens
  import opened AuthEmails
  import Text

  /** revokeAllForUser row by row. */
  lemma RevokedExactly(rows: map<SessionId, Session>, uid: UserId, now: Time, reason: Reason,
                       except: Option<SessionId>, compromisedAt: Option<Time>)
    ensures var rows' := RevokeRows(rows, uid, now, reason, except, compromisedAt);
            && rows'.Keys == rows.Keys
            && (forall sid | sid in rows' && rows'[sid].userId == uid && rows'[sid].revokedAt.None? :: except == Some(sid))
            && forall sid | sid in rows' ::
                 rows'[sid] == if rows[sid].userId == uid && rows[sid].revokedAt.None? && except != Some(sid)
                               then rows[sid].(revokedAt := Some(now), revokedReason := Some(reason), compromisedAt := compromisedAt)
                               else rows[sid]
  {
  }

  /** The tables with the statements the repositories run on them. */
  class AuthDatabase {
    const cfg: Config
    var now: Time
    var next: nat
    var users: map<UserId, User>
    var sessions: map<SessionId, Session>
    var actionTokens: map<nat, ActionToken>
    var touched: map<SessionId, Time>
    var refreshMinted: set<RefreshToken>
    var accessMinted: set<AccessToken>
    ghost var openedWith: map<SessionId, Option<Digest>>
    ghost var setter: map<UserId, SessionId>

    ghost function Contents(): State
      reads this
    {
      State(now, next, users, SessionStore(sessions, touched, refreshMinted, accessMinted, openedWith), actionTokens, setter)
    }

    /** The unique indexes on live e-mail addresses and on token hashes. */
    ghost predicate Valid()
      reads this
    {
      DistinctEmails(users) && OneOutstanding(actionTokens, next)
    }

    constructor (cfg: Config, now: Time, users: map<UserId, User>, next: nat)
      requires DistinctEmails(users) && forall id | id in users :: id < next
      ensures Valid() && this.cfg == cfg && Initial(Contents()) && this.users == users && this.now == now
    {
      this.cfg := cfg;
      this.now, this.next := now, next;
      this.users, this.sessions, this.actionTokens, this.touched := users, map[], map[], map[];
      this.refreshMinted, this.accessMinted := {}, {};
      this.openedWith, this.setter := map[], map[];
    }

    /** A random identifier that was never drawn before. */
    method Draw() returns (n: nat)
      modifies this`next
      ensures n == old(next) && next == old(next) + 1
    {
      n := next;
      next := next + 1;
    }

    method FindUserById(id: UserId) returns (r: Option<User>)
      ensures r == if LiveUser(Contents(), id) then Some(users[id]) else None
    {
      r := if id in users && users[id].deletedAt.None? then Some(users[id]) else None;
    }

    method FindUserByEmail(email: string) returns (r: Option<UserId>)
      requires DistinctEmails(users)
      ensures r == FindByEmail(users, email)
    {
      if id :| id in users && HasEmail(users, id, email) {
        FoundIsOnly(users, id, email);
        r := Some(id);
      } else {
        r := None;
      }
    }

    method FindSession(id: SessionId) returns (r: Option<Session>)
      ensures r == if id in sessions then Some(sessions[id]) else None
    {
      r := if id in sessions then Some(sessions[id]) else None;
    }

    method FindActiveSession(id: SessionId) returns (r: Option<Session>)
      ensures r == if id in sessions && Unrevoked(sessions[id]) then Some(sessions[id]) else None
    {
      r := if id in sessions && Unrevoked(sessions[id]) then Some(sessions[id]) else None;
    }

    method RevokeSession(id: SessionId, reason: Reason)
      modifies this`sessions
      ensures sessions.Keys == old(sessions).Keys
      ensures forall sid | sid in sessions && sid != id :: sessions[sid] == old(sessions)[sid]
      ensures id in sessions ==>
        && sessions[id].revokedAt.Some?
        && sessions[id] == if old(sessions)[id].revokedAt.Some? then old(sessions)[id]
                           else old(sessions)[id].(revokedAt := Some(now), revokedReason := Some(reason))
      ensures sessions == RevokeRow(old(sessions), id, now, reason)
    {
      if id in sessions && Unrevoked(sessions[id]) {
        sessions := sessions[id := Revoked(sessions[id], now, reason)];
      }
    }

    method RevokeAllFor(uid: UserId, reason: Reason, except: Option<SessionId>, compromisedAt: Option<Time>)
      modifies this`sessions
      ensures sessions.Keys == old(sessions).Keys
      ensures forall sid | sid in sessions && sessions[sid].userId == uid && sessions[sid].revokedAt.None? :: except == Some(sid)
      ensures forall sid | sid in sessions ::
        sessions[sid] == if old(sessions)[sid].userId == uid && old(sessions)[sid].revokedAt.None? && except != Some(sid)
                         then old(sessions)[sid].(revokedAt := Some(now), revokedReason := Some(reason), compromisedAt := compromisedAt)
                         else old(sessions)[sid]
      ensures sessions == RevokeRows(old(sessions), uid, now, reason, except, compromisedAt)
    {
      ghost var revoked := RevokeRows(sessions, uid, now, reason, except, compromisedAt);
      RevokedExactly(sessions, uid, now, reason, except, compromisedAt);
      sessions := map id | id in sessions ::
        if sessions[id].userId == uid && Unrevoked(sessions[id]) && except != Some(id)
        then Revoked(sessions[id], now, reason).(compromisedAt := compromisedAt)
        else sessions[id];
      assert sessions == revoked;
    }

    method CleanupExpiredOrRevoked()
      modifies this`sessions
      ensures forall sid :: sid in sessions <==>
        && sid in old(sessions)
        && (old(sessions)[sid].revokedAt.None? || now <= old(sessions)[sid].revokedAt.value)
        && (old(sessions)[sid].expiresAt.None? || now <= old(sessions)[sid].expiresAt.value)
      ensures forall sid | sid in sessions :: sessions[sid] == old(sessions)[sid]
      ensures Contents() == DropDeadSessions(old(Contents()))
    {
      sessions := map id | id in sessions && !Collectable(sessions[id], now) :: sessions[id];
    }

    method FindActiveByHash(hash: TokenHash, purpose: Purpose) returns (r: Option<nat>)
      requires OneOutstanding(actionTokens, next)
      ensures r == AuthModel.FindActiveByHash(actionTokens, hash, purpose)
    {
      if id :| id in actionTokens && Matching(actionTokens, id, hash, purpose) {
        r := Some(id);
      } else {
        r := None;
      }
    }

    method InvalidateOutstanding(uid: UserId, purpose: Purpose)
      modifies this`actionTokens
      ensures actionTokens.Keys == old(actionTokens).Keys
      ensures forall id | id in actionTokens && actionTokens[id].userId == uid && actionTokens[id].purpose == purpose ::
        && actionTokens[id].consumedAt.Some?
        && actionTokens[id] == old(actionTokens)[id].(consumedAt :=
             if old(actionTokens)[id].consumedAt.Some? then old(actionTokens)[id].consumedAt else Some(now))
      ensures forall id | id in actionTokens && !(actionTokens[id].userId == uid && actionTokens[id].purpose == purpose) ::
        actionTokens[id] == old(actionTokens)[id]
      ensures actionTokens == ConsumeOutstanding(old(actionTokens), uid, purpose, now)
    {
      actionTokens := map id | id in actionTokens ::
        if actionTokens[id].userId == uid && actionTokens[id].purpose == purpose && actionTokens[id].consumedAt.None?
        then actionTokens[id].(consumedAt := Some(now))
        else actionTokens[id];
    }

    method CleanupExpiredTokens()
      modifies this`actionTokens
      ensures forall id :: id in actionTokens <==>
        && id in old(actionTokens)
        && now <= old(actionTokens)[id].expiresAt
        && (old(actionTokens)[id].consumedAt.None? || now <= old(actionTokens)[id].consumedAt.value)
      ensures forall id | id in actionTokens :: actionTokens[id] == old(actionTokens)[id]
      ensures Contents() == DropDeadTokens(old(Contents()))
    {
      actionTokens := map id | id in actionTokens && !CollectableToken(actionTokens[id], now) :: actionTokens[id];
    }
  }

  class AuthTokenService {
    const db: AuthDatabase

    constructor (db: AuthDatabase)
      ensures this.db == db
    {
      this.db := db;
    }

    method CreateToken(uid: UserId, email: string, purpose: Purpose) returns (raw: nat)
      requires db.Valid()
      modifies db
      ensures db.Valid()
      ensures db.Contents() == AuthModel.CreateToken(db.cfg, old(db.Contents()), uid, email, purpose) && raw == old(db.next)
    {
      hide ConsumeOutstanding, OneOutstanding;
      CreateAdvances(db.cfg, db.Contents(), uid, email, purpose);
      db.InvalidateOutstanding(uid, purpose);
      raw := db.Draw();
      var expiresAt := db.now + (if purpose == PasswordReset then db.cfg.resetMinutes * 60000 else db.cfg.verificationHours * 3600000);
      db.actionTokens := db.actionTokens[raw := ActionToken(uid, purpose, Sha256(raw), email, expiresAt, None, db.now)];
    }

    method ConsumeToken(raw: nat, purpose: Purpose) returns (r: Option<nat>)
      requires db.Valid()
      modifies db
      ensures db.Valid()
      ensures r == ConsumableToken(old(db.Contents()), raw, purpose)
      ensures db.Contents() == if r.Some? then ConsumeRow(old(db.Contents()), r.value) else old(db.Contents())
    {
      hide OneOutstanding;
      r := db.FindActiveByHash(Sha256(raw), purpose);
      if r.None? || db.actionTokens[r.value].expiresAt <= db.now {
        return None;
      }
      ConsumeAdvances(db.Contents(), r.value);
      db.actionTokens := db.actionTokens[r.value := db.actionTokens[r.value].(consumedAt := Some(db.now))];
    }

    method Cleanup()
      requires db.Valid()
      modifies db
      ensures db.Valid() && db.Contents() == DropDeadTokens(old(db.Contents()))
    {
      DeleteAdvances(db.Contents(), 0);
      db.CleanupExpiredTokens();
    }
  }

  class AuthSessionService {
    const db: AuthDatabase

    constructor (db: AuthDatabase)
      ensures this.db == db
    {
      this.db := db;
    }

    method GenerateTokenPair(uid: UserId, email: string, sid: SessionId, version: nat, jti: nat)
      returns (access: AccessToken, refresh: RefreshToken)
      modifies db`accessMinted, db`refreshMinted
      ensures access == AccessToken(uid, email, sid, db.now / 1000 + db.cfg.accessLifetimeSeconds, jti)
      ensures refresh == RefreshToken(uid, email, sid, version, db.now / 1000 + db.cfg.refreshLifetimeSeconds, jti)
      ensures db.accessMinted == old(db.accessMinted) + {access} && db.refreshMinted == old(db.refreshMinted) + {refresh}
    {
      access := AccessToken(uid, email, sid, db.now / 1000 + db.cfg.accessLifetimeSeconds, jti);
      refresh := RefreshToken(uid, email, sid, version, db.now / 1000 + db.cfg.refreshLifetimeSeconds, jti);
      db.accessMinted, db.refreshMinted := db.accessMinted + {access}, db.refreshMinted + {refresh};
    }

    method CreateLoginSession(uid: UserId, user: User) returns (outcome: Outcome)
      requires db.Valid() && uid in db.users && db.users[uid] == user
      modifies db
      ensures db.Valid()
      ensures (db.Contents(), outcome) == OpenSession(db.cfg, old(db.Contents()), uid)
    {
      hide OneOutstanding, DistinctEmails;
      LaterOneOutstanding(db.actionTokens, db.next);
      var sid := db.Draw();
      var access, refresh := GenerateTokenPair(uid, user.email, sid, 1, sid);
      var session := Session(uid, Digest(Jwt(refresh), sid), 1, db.now, db.now, db.now,
                             Some(db.now + db.cfg.sessionLifetimeMs), None, None, None);
      db.sessions := db.sessions[sid := session];
      db.openedWith := db.openedWith[sid := user.passwordHash];
      outcome := Issued(access, refresh);
    }

    method HandleRefreshTokenReuse(uid: UserId)
      modifies db`sessions
      ensures db.sessions == RevokeRows(old(db.sessions), uid, db.now, TokenReuse, None, Some(db.now))
    {
      var compromisedAt := db.now;
      db.RevokeAllFor(uid, TokenReuse, None, Some(compromisedAt));
    }

    method Refresh(token: RefreshToken) returns (outcome: Outcome)
      requires db.Valid()
      modifies db
      ensures db.Valid()
      ensures (db.Contents(), outcome) == DoRefresh(db.cfg, old(db.Contents()), token)
    {
      hide OneOutstanding, DistinctEmails, RevokeRows;
      LaterOneOutstanding(db.actionTokens, db.next);
      if token !in db.refreshMinted || token.expSeconds <= db.now / 1000 {
        return Failed(InvalidRefreshToken);
      }
      var found := db.FindSession(token.sessionId);
      if found.None? || found.value.userId != token.userId {
        return Failed(InvalidRefreshToken);
      }
      var session := found.value;
      if session.revokedAt.Some? || (session.expiresAt.Some? && session.expiresAt.value <= db.now) {
        return Failed(SessionNotActive);
      }
      if token.tokenVersion != session.tokenVersion {
        HandleRefreshTokenReuse(token.userId);
        return Failed(RefreshTokenReuse);
      }
      var matches := db.cfg.compare(Jwt(token), session.refreshTokenHash);
      if !matches {
        HandleRefreshTokenReuse(token.userId);
        return Failed(InvalidRefreshToken);
      }
      var user := db.FindUserById(token.userId);
      if user.None? || !user.value.isActive {
        return Failed(AccountInactive);
      }
      session := session.(tokenVersion := session.tokenVersion + 1);
      session := session.(lastActiveAt := db.now, lastRefreshedAt := db.now);
      session := session.(expiresAt := Some(db.now + db.cfg.sessionLifetimeMs));
      var n := db.Draw();
      var access, refresh := GenerateTokenPair(token.userId, user.value.email, token.sessionId, session.tokenVersion, n);
      session := session.(refreshTokenHash := Digest(Jwt(refresh), n));
      db.sessions := db.sessions[token.sessionId := session];
      outcome := Issued(access, refresh);
    }

    method TouchSession(sid: SessionId)
      requires db.Valid()
      modifies db
      ensures db.Valid()
      ensures db.Contents() == Touch(db.cfg, old(db.Contents()), sid)
    {
      hide OneOutstanding, DistinctEmails;
      if sid in db.touched && db.now < db.touched[sid] {
        return;
      }
      var session := db.FindActiveSession(sid);
      if session.Some? {
        db.sessions := db.sessions[sid := session.value.(lastActiveAt := db.now)];
      }
      db.touched := db.touched[sid := db.now + db.cfg.throttleSeconds * 1000];
    }

    /** The guard: signature and expiry of the JWT, then the session row, then the touch. */
    method AuthorizeRequestUser(token: AccessToken) returns (admitted: bool)
      requires db.Valid()
      modifies db
      ensures db.Valid()
      ensures admitted == Admits(old(db.Contents()), token)
      ensures db.Contents() == if admitted then Touch(db.cfg, old(db.Contents()), token.sessionId) else old(db.Contents())
    {
      hide OneOutstanding, DistinctEmails, Touch;
      if token !in db.accessMinted || token.expSeconds <= db.now / 1000 {
        return false;
      }
      var session := db.FindActiveSession(token.sessionId);
      if session.None? || session.value.userId != token.userId {
        return false;
      }
      if session.value.expiresAt.Some? && session.value.expiresAt.value <= db.now {
        return false;
      }
      TouchSession(token.sessionId);
      admitted := true;
    }

    method LogoutCurrent(token: AccessToken)
      requires db.Valid()
      modifies db
      ensures db.Valid()
      ensures (db.Contents(), Done) == Handle(db.cfg, old(db.Contents()), AuthModel.Logout(token))
    {
      db.RevokeSession(token.sessionId, AuthModel.LogoutCurrent);
    }

    method LogoutAll(uid: UserId)
      requires db.Valid()
      modifies db
      ensures db.Valid() && db.Contents() == RevokeAllForUser(old(db.Contents()), uid, AuthModel.LogoutAll, None, None)
      ensures forall token: AccessToken | token.userId == uid ::
        (db.Contents(), Done) == Handle(db.cfg, old(db.Contents()), LogoutAllSessions(token))
    {
      hide RevokeRows;
      db.RevokeAllFor(uid, AuthModel.LogoutAll, None, None);
    }

    method RevokeSpecificSession(token: AccessToken, sid: SessionId) returns (outcome: Outcome)
      requires db.Valid()
      modifies db
      ensures db.Valid()
      ensures (db.Contents(), outcome) == Handle(db.cfg, old(db.Contents()), AuthModel.RevokeSession(token, sid))
    {
      hide RevokeRow;
      var session := db.FindSession(sid);
      if session.None? || session.value.userId != token.userId {
        return Failed(NotFound);
      }
      db.RevokeSession(sid, ManualRevoke);
      outcome := Done;
    }

    method RevokeOtherSessionsForPasswordChange(token: AccessToken)
      requires db.Valid()
      modifies db
      ensures db.Valid()
      ensures db.Contents() == RevokeAllForUser(old(db.Contents()), token.userId, PasswordChanged, Some(token.sessionId), None)
    {
      hide RevokeRows;
      db.RevokeAllFor(token.userId, PasswordChanged, Some(token.sessionId), None);
    }

    method Cleanup()
      requires db.Valid()
      modifies db
      ensures db.Valid() && db.Contents() == DropDeadSessions(old(db.Contents()))
    {
      db.CleanupExpiredOrRevoked();
    }
  }

  class AuthService {
    const db: AuthDatabase
    const sessionService: AuthSessionService
    const tokenService: AuthTokenService

    ghost predicate Wired() {
      sessionService.db == db && tokenService.db == db
    }

    constructor (db: AuthDatabase, sessionService: AuthSessionService, tokenService: AuthTokenService)
      requires sessionService.db == db && tokenService.db == db
      ensures this.db == db && Wired()
    {
      this.db, this.sessionService, this.tokenService := db, sessionService, tokenService;
    }

    method HandleFailedLogin(uid: UserId, loaded: User)
      requires uid in db.users && db.users[uid] == loaded
      modifies db`users
      ensures db.Contents() == FailedLogin(db.cfg, old(db.Contents()), uid)
    {
      var user := loaded;
      user := user.(failedLoginCount := user.failedLoginCount + 1);
      user := user.(lastFailedLoginAt := Some(db.now));
      if user.failedLoginCount >= db.cfg.maxFailedLogins {
        user := user.(lockedUntil := Some(db.now + db.cfg.lockMinutes * 60000));
      }
      db.users := db.users[uid := user];
    }

    method Login(rawEmail: string, password: string) returns (outcome: Outcome)
      requires Wired() && db.Valid()
      modifies db
      ensures db.Valid()
      ensures (db.Contents(), outcome) == DoLogin(db.cfg, old(db.Contents()), rawEmail, password)
    {
      hide OneOutstanding, DistinctEmails, OpenSession, FailedLogin, Text.Normalize;
      LoginDistinct(db.cfg, db.Contents(), rawEmail, password);
      var email := Text.Normalize(rawEmail);
      var found := db.FindUserByEmail(email);
      if found.None? {
        return Failed(InvalidCredentials);
      }
      var uid := found.value;
      var user := db.users[uid];
      if user.passwordHash.None? {
        return Failed(InvalidCredentials);
      }
      if !user.isActive {
        return Failed(AccountInactive);
      }
      if user.lockedUntil.Some? && db.now < user.lockedUntil.value {
        return Failed(AccountLocked);
      }
      var matches := db.cfg.compare(Password(password), user.passwordHash.value);
      if !matches {
        HandleFailedLogin(uid, user);
        return Failed(InvalidCredentials);
      }
      SavedDistinct(db.users, uid, ClearFailures(user).(lastLoginAt := Some(db.now)));
      user := user.(failedLoginCount := 0, lastFailedLoginAt := None, lockedUntil := None);
      user := user.(lastLoginAt := Some(db.now));
      db.users := db.users[uid := user];
      outcome := sessionService.CreateLoginSession(uid, user);
    }

    method ResendVerificationEmail(token: AccessToken) returns (outcome: Outcome)
      requires Wired() && db.Valid()
      modifies db
      ensures db.Valid()
      ensures (db.Contents(), outcome) == DoResendVerification(db.cfg, old(db.Contents()), token.userId)
    {
      hide OneOutstanding, DistinctEmails, AuthModel.CreateToken;
      HandleDistinct(db.cfg, db.Contents(), ResendVerification(token));
      var found := db.FindUserById(token.userId);
      if found.None? {
        return Failed(NotFound);
      }
      var user := found.value;
      if user.emailVerifiedAt.Some? {
        return Done;
      }
      CreateFrame(db.cfg, db.Contents(), token.userId, user.email, EmailVerification);
      var raw := tokenService.CreateToken(token.userId, user.email, EmailVerification);
      user := user.(verificationEmailSentAt := Some(db.now));
      db.users := db.users[token.userId := user];
      outcome := Done;
    }

    method VerifyEmail(raw: nat) returns (outcome: Outcome)
      requires Wired() && db.Valid()
      modifies db
      ensures db.Valid()
      ensures (db.Contents(), outcome) == DoVerifyEmail(old(db.Contents()), raw)
    {
      hide OneOutstanding, DistinctEmails;
      ActionDistinct(db.Contents(), raw, "");
      var consumed := tokenService.ConsumeToken(raw, EmailVerification);
      if consumed.None? {
        return Failed(InvalidActionToken);
      }
      var uid := db.actionTokens[consumed.value].userId;
      var found := db.FindUserById(uid);
      if found.None? {
        return Failed(NotFound);
      }
      var user := found.value.(emailVerifiedAt := Some(db.now));
      db.users := db.users[uid := user];
      outcome := Done;
    }

    method ForgotPassword(rawEmail: string) returns (outcome: Outcome)
      requires Wired() && db.Valid()
      modifies db
      ensures db.Valid()
      ensures (db.Contents(), outcome) == DoForgotPassword(db.cfg, old(db.Contents()), rawEmail)
    {
      hide OneOutstanding, DistinctEmails, AuthModel.CreateToken, Text.Normalize;
      var found := db.FindUserByEmail(Text.Normalize(rawEmail));
      if found.Some? {
        CreateFrame(db.cfg, db.Contents(), found.value, db.users[found.value].email, PasswordReset);
        var raw := tokenService.CreateToken(found.value, db.users[found.value].email, PasswordReset);
      }
      outcome := Done;
    }

    method ResetPassword(raw: nat, newPassword: string) returns (outcome: Outcome)
      requires Wired() && db.Valid()
      modifies db
      ensures db.Valid()
      ensures (db.Contents(), outcome) == DoResetPassword(old(db.Contents()), raw, newPassword)
    {
      hide OneOutstanding, DistinctEmails, RevokeRows;
      ActionDistinct(db.Contents(), raw, newPassword);
      var consumed := tokenService.ConsumeToken(raw, PasswordReset);
      if consumed.None? {
        return Failed(InvalidActionToken);
      }
      var uid := db.actionTokens[consumed.value].userId;
      var found := db.FindUserById(uid);
      if found.None? {
        return Failed(NotFound);
      }
      var user := found.value;
      LaterOneOutstanding(db.actionTokens, db.next);
      var salt := db.Draw();
      user := user.(passwordHash := Some(Digest(Password(newPassword), salt)));
      user := user.(passwordChangedAt := Some(db.now));
      user := user.(failedLoginCount := 0, lastFailedLoginAt := None, lockedUntil := None);
      db.users := db.users[uid := user];
      db.setter := db.setter - {uid};
      sessionService.LogoutAll(uid);
      outcome := Done;
    }
  }

  class AccountService {
    const db: AuthDatabase
    const sessionService: AuthSessionService
    const tokenService: AuthTokenService

    ghost predicate Wired() {
      sessionService.db == db && tokenService.db == db
    }

    constructor (db: AuthDatabase, sessionService: AuthSessionService, tokenService: AuthTokenService)
      requires sessionService.db == db && tokenService.db == db
      ensures this.db == db && Wired()
    {
      this.db, this.sessionService, this.tokenService := db, sessionService, tokenService;
    }

    /** Every throw leaves behind what was already written: revoked sessions and issued tokens. */
    method UpdateProfile(token: AccessToken, dto: ProfileChange) returns (outcome: Outcome)
      requires Wired() && db.Valid()
      modifies db
      ensures db.Valid()
      ensures (db.Contents(), outcome) == DoUpdateProfile(db.cfg, old(db.Contents()), token, dto)
    {
      hide OneOutstanding, DistinctEmails, RevokeRows, AuthModel.CreateToken, Text.Lower;
      ghost var before := db.Contents();
      ProfileDistinct(db.cfg, before, token, dto);
      LaterOneOutstanding(db.actionTokens, db.next);
      var found := db.FindUserById(token.userId);
      if found.None? {
        return Failed(NotFound);
      }
      var user := found.value;
      if Truthy(dto.newPassword) && !Truthy(dto.currentPassword) {
        return Failed(BadRequest);
      }
      if Truthy(dto.currentPassword) && Truthy(dto.newPassword) {
        var valid := user.passwordHash.Some? && db.cfg.compare(Password(dto.currentPassword.value), user.passwordHash.value);
        if !valid {
          return Failed(Forbidden);
        }
        var salt := db.Draw();
        user := user.(passwordHash := Some(Digest(Password(dto.newPassword.value), salt)));
        user := user.(passwordChangedAt := Some(db.now));
        sessionService.RevokeOtherSessionsForPasswordChange(token);
      }
      assert (db.Contents(), Some(user)) == ProfilePassword(db.cfg, before, token, dto);
      ghost var middle, loaded := db.Contents(), user;
      if Truthy(dto.email) && dto.email.value != user.email {
        var existing := db.FindUserByEmail(Text.Lower(dto.email.value));
        if existing.Some? && existing.value != token.userId {
          return Failed(Conflict);
        }
        user := user.(email := Text.Lower(dto.email.value));
        user := user.(emailVerifiedAt := None, verificationEmailSentAt := Some(db.now));
        CreateFrame(db.cfg, db.Contents(), token.userId, user.email, EmailVerification);
        var raw := tokenService.CreateToken(token.userId, user.email, EmailVerification);
      }
      assert (db.Contents(), Some(user)) == ProfileEmail(db.cfg, middle, token.userId, loaded, dto.email);
      if dto.avatar.AvatarRejected? {
        return Failed(BadRequest);
      }
      if dto.avatar.AvatarKey? {
        user := user.(avatarKey := dto.avatar.key);
      }
      db.users := db.users[token.userId := user];
      if ChangesPassword(dto) {
        db.setter := db.setter[token.userId := token.sessionId];
      }
      outcome := Done;
    }
  }

  class UsersService {
    const db: AuthDatabase

    constructor (db: AuthDatabase)
      ensures this.db == db
    {
      this.db := db;
    }

    method RevokeAllUserSessions(uid: UserId, reason: Reason)
      modifies db`sessions
      ensures db.sessions == RevokeUserRows(old(db.sessions), uid, db.now, reason)
    {
      var rows := db.sessions;
      db.sessions := map id | id in rows ::
        if rows[id].userId == uid && Unrevoked(rows[id]) then Revoked(rows[id], db.now, reason) else rows[id];
    }

    method Create(dto: NewUser) returns (outcome: Outcome)
      requires db.Valid()
      modifies db
      ensures db.Valid()
      ensures (db.Contents(), outcome) == DoCreateUser(old(db.Contents()), dto)
    {
      hide OneOutstanding, DistinctEmails, Text.Normalize;
      CreateUserDistinct(db.Contents(), dto);
      LaterOneOutstanding(db.actionTokens, db.next);
      var email := Text.Normalize(dto.email);
      var existing := db.FindUserByEmail(email);
      if existing.Some? {
        return Failed(Conflict);
      }
      if !dto.rolesKnown {
        return Failed(BadRequest);
      }
      if !dto.brandsKnown {
        return Failed(BadRequest);
      }
      var n := db.Draw();
      var user := User(email, Some(Digest(Password(dto.password), n)), if dto.isActive.Some? then dto.isActive.value else true,
                       None, 0, None, None, None, Some(db.now), None, None, None);
      db.users := db.users[n := user];
      outcome := Done;
    }

    /** The assignments of update on the loaded row, with the revocations among them. */
    method ApplyChange(id: UserId, loaded: User, dto: UserChange) returns (user: User)
      modifies db`sessions, db`next
      ensures db.next == old(db.next) + 1
      ensures db.sessions == RevokedByUpdate(old(db.sessions), id, dto, db.now)
      ensures user == EditedUser(loaded, dto, db.now, old(db.next))
    {
      hide RevokeUserRows, Text.Normalize;
      user := loaded;
      if Truthy(dto.email) && Text.Normalize(dto.email.value) != user.email {
        user := user.(email := Text.Normalize(dto.email.value));
        user := user.(emailVerifiedAt := None, verificationEmailSentAt := None);
      }
      if dto.isActive.Some? {
        user := user.(isActive := dto.isActive.value);
        if !dto.isActive.value {
          RevokeAllUserSessions(id, UserDeactivated);
        }
      }
      var salt := db.Draw();
      if dto.password.Some? {
        user := user.(passwordHash := Some(Digest(Password(dto.password.value), salt)));
        user := user.(passwordChangedAt := Some(db.now));
        RevokeAllUserSessions(id, PasswordChangedByAdmin);
      }
    }

    method Update(id: UserId, dto: UserChange) returns (outcome: Outcome)
      requires db.Valid()
      modifies db
      ensures db.Valid()
      ensures (db.Contents(), outcome) == DoUpdateUser(old(db.Contents()), id, dto)
    {
      hide OneOutstanding, DistinctEmails, RevokedByUpdate, EditedUser, Text.Normalize;
      ghost var before := db.Contents();
      UpdateUserDistinct(before, id, dto);
      UpdateUserAdvances(before, id, dto);
      var found := db.FindUserById(id);
      if found.None? {
        return Failed(NotFound);
      }
      var user := found.value;
      if Renames(user, dto) {
        var normalizedEmail := Text.Normalize(dto.email.value);
        var existing := db.FindUserByEmail(normalizedEmail);
        if existing.Some? && existing.value != id {
          return Failed(Conflict);
        }
        db.actionTokens := map row | row in db.actionTokens && db.actionTokens[row].userId != id :: db.actionTokens[row];
      }
      user := ApplyChange(id, user, dto);
      if !dto.rolesKnown {
        return Failed(BadRequest);
      }
      if !dto.brandsKnown {
        return Failed(BadRequest);
      }
      db.users := db.users[id := user];
      if dto.password.Some? {
        db.setter := db.setter - {id};
      }
      outcome := Done;
    }

    method Remove(id: UserId, token: AccessToken) returns (outcome: Outcome)
      requires db.Valid()
      modifies db
      ensures db.Valid()
      ensures (db.Contents(), outcome) == DoRemoveUser(old(db.Contents()), token, id)
    {
      hide OneOutstanding, DistinctEmails, RevokeUserRows;
      HandleDistinct(db.cfg, db.Contents(), RemoveUser(token, id));
      if id == token.userId {
        return Failed(Forbidden);
      }
      var found := db.FindUserById(id);
      if found.None? {
        return Failed(NotFound);
      }
      RevokeAllUserSessions(id, UserDeleted);
      var user := found.value.(isActive := false);
      db.users := db.users[id := user];
      db.users := db.users[id := user.(deletedAt := Some(db.now))];
      assert db.users == old(db.users)[id := user.(deletedAt := Some(db.now))];
      outcome := Done;
    }
  }
}
