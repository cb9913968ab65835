/** What each request answers and leaves behind, read off the tables before it: the columns of the rows it
 *  writes, and the exact condition of each answer. */
module AuthEffects {
  import opened Wrappers
  import opened AuthModel
  import opened AuthActionTokens
  import opened AuthEmails
  import opened AuthEvolution
  import AuthActivity
  import opened AuthOwners
  import Text

  /** An undeleted row with the address. */
  ghost predicate Owner(users: map<UserId, User>, uid: UserId, email: string) {
    uid in users && users[uid].deletedAt.None? && users[uid].email == email
  }

  ghost predicate Taken(users: map<UserId, User>, uid: UserId, email: string) {
    exists other :: other != uid && Owner(users, other, email)
  }

  predicate LockRuns(user: User, now: Time) { user.lockedUntil.Some? && now < user.lockedUntil.value }

  /** A session id or a user id that the tables hold was drawn before. */
  ghost predicate IdsDrawn(s: State) {
    (forall id | id in s.users :: id < s.next) && (forall sid | sid in s.store.rows :: sid < s.next)
  }

  lemma FoundOwner(users: map<UserId, User>, uid: UserId, email: string)
    requires DistinctEmails(users) && Owner(users, uid, email)
    ensures FindByEmail(users, email) == Some(uid)
    ensures forall other :: Owner(users, other, email) ==> other == uid
  {
    FoundIsOnly(users, uid, email);
  }

  lemma NobodyFound(users: map<UserId, User>, email: string)
    requires forall uid :: !Owner(users, uid, email)
    ensures FindByEmail(users, email).None?
  {
    assert forall uid :: HasEmail(users, uid, email) ==> Owner(users, uid, email);
  }

  lemma TakenMeans(s: State, uid: UserId, email: string)
    requires DistinctEmails(s.users)
    ensures EmailTaken(s, uid, email) <==> Taken(s.users, uid, email)
  {
    if Taken(s.users, uid, email) {
      var other :| other != uid && Owner(s.users, other, email);
      FoundOwner(s.users, other, email);
    }
    if EmailTaken(s, uid, email) {
      assert Owner(s.users, FindByEmail(s.users, email).value, email);
    }
  }

  // ------------------------------------------------------------------ login

  /** The account that an address and a password open at this moment. */
  ghost predicate MayEnter(cfg: Config, users: map<UserId, User>, now: Time, email: string, password: string, uid: UserId) {
    && Owner(users, uid, Text.Normalize(email))
    && users[uid].passwordHash.Some? && users[uid].isActive && !LockRuns(users[uid], now)
    && cfg.compare(Password(password), users[uid].passwordHash.value)
  }

  ghost predicate LockedOut(users: map<UserId, User>, now: Time, email: string, uid: UserId) {
    Owner(users, uid, Text.Normalize(email)) && users[uid].passwordHash.Some? && users[uid].isActive && LockRuns(users[uid], now)
  }

  ghost predicate SwitchedOff(users: map<UserId, User>, email: string, uid: UserId) {
    Owner(users, uid, Text.Normalize(email)) && users[uid].passwordHash.Some? && !users[uid].isActive
  }

  ghost predicate SomeMayEnter(cfg: Config, users: map<UserId, User>, now: Time, email: string, password: string) {
    exists uid :: MayEnter(cfg, users, now, email, password, uid)
  }

  ghost predicate SomeLockedOut(users: map<UserId, User>, now: Time, email: string) { exists uid :: LockedOut(users, now, email, uid) }

  ghost predicate SomeSwitchedOff(users: map<UserId, User>, email: string) { exists uid :: SwitchedOff(users, email, uid) }

  /** Every answer of a login, by the table: in particular a running lock refuses whatever the password. */
  lemma LoginAnswersExactly(cfg: Config, s: State, e: Event)
    requires DistinctEmails(s.users) && e.request.Login?
    ensures Step(cfg, s, e).1.Issued? <==> SomeMayEnter(cfg, s.users, s.now + e.elapsed, e.request.email, e.request.password)
    ensures Step(cfg, s, e).1 == Failed(AccountLocked) <==> SomeLockedOut(s.users, s.now + e.elapsed, e.request.email)
    ensures Step(cfg, s, e).1 == Failed(AccountInactive) <==> SomeSwitchedOff(s.users, e.request.email)
    ensures Step(cfg, s, e).1.Issued? || Step(cfg, s, e).1 in {Failed(AccountLocked), Failed(AccountInactive), Failed(InvalidCredentials)}
    ensures Step(cfg, s, e).1 in {Failed(AccountLocked), Failed(AccountInactive)} ==> Step(cfg, s, e).0 == s.(now := s.now + e.elapsed)
    ensures (forall uid | Owner(s.users, uid, Text.Normalize(e.request.email)) :: s.users[uid].passwordHash.None?) ==>
              Step(cfg, s, e) == (s.(now := s.now + e.elapsed), Failed(InvalidCredentials))
  {
    hide Text.Normalize, OpenSession;
    var email := Text.Normalize(e.request.email);
    if uid :| Owner(s.users, uid, email) {
      FoundOwner(s.users, uid, email);
      OpenIssues(cfg, SaveUser(Tick(s, e.elapsed), uid, ClearFailures(s.users[uid]).(lastLoginAt := Some(s.now + e.elapsed))), uid);
      OnlyCandidate(cfg, s.users, s.now + e.elapsed, e.request.email, e.request.password, uid);
    } else {
      NobodyFound(s.users, email);
    }
  }

  /** With distinct addresses only the owner of the address can meet one of the conditions. */
  lemma OnlyCandidate(cfg: Config, users: map<UserId, User>, now: Time, email: string, password: string, uid: UserId)
    requires DistinctEmails(users) && Owner(users, uid, Text.Normalize(email))
    ensures SomeMayEnter(cfg, users, now, email, password) <==> MayEnter(cfg, users, now, email, password, uid)
    ensures SomeLockedOut(users, now, email) <==> LockedOut(users, now, email, uid)
    ensures SomeSwitchedOff(users, email) <==> SwitchedOff(users, email, uid)
  {
    hide Text.Normalize;
    FoundOwner(users, uid, Text.Normalize(email));
    if x :| MayEnter(cfg, users, now, email, password, x) {
      assert Owner(users, x, Text.Normalize(email));
    }
    if x :| LockedOut(users, now, email, x) {
      assert Owner(users, x, Text.Normalize(email));
    }
    if x :| SwitchedOff(users, email, x) {
      assert Owner(users, x, Text.Normalize(email));
    }
  }

  lemma OpenIssues(cfg: Config, s: State, uid: UserId)
    requires uid in s.users
    ensures OpenSession(cfg, s, uid).1.Issued?
  {
  }

  /** A session as a login opens it. */
  ghost predicate NewSession(cfg: Config, row: Session, uid: UserId, now: Time, refresh: RefreshToken) {
    && row.userId == uid && row.tokenVersion == 1 && row.refreshTokenHash.secret == Jwt(refresh)
    && row.issuedAt == now && row.lastActiveAt == now && row.lastRefreshedAt == now
    && row.expiresAt == Some(now + cfg.sessionLifetimeMs)
    && row.revokedAt.None? && row.revokedReason.None? && row.compromisedAt.None?
  }

  /** The tokens name the user, the present address and the session, and last as configured. */
  ghost predicate TokensFor(cfg: Config, answer: Outcome, user: User, uid: UserId, sid: SessionId, version: nat, now: Time) {
    && answer.Issued?
    && answer.refresh == RefreshToken(uid, user.email, sid, version, now / 1000 + cfg.refreshLifetimeSeconds, answer.refresh.jti)
    && answer.access == AccessToken(uid, user.email, sid, now / 1000 + cfg.accessLifetimeSeconds, answer.access.jti)
  }

  /** An accepted login clears the failures, stamps the row and opens one session under an unused id. */
  lemma LoginOpens(cfg: Config, s: State, e: Event, uid: UserId)
    requires DistinctEmails(s.users) && IdsDrawn(s) && e.request.Login?
    requires MayEnter(cfg, s.users, s.now + e.elapsed, e.request.email, e.request.password, uid)
    ensures var (u, answer) := Step(cfg, s, e);
            var now := s.now + e.elapsed;
            && u.users == s.users[uid := s.users[uid].(failedLoginCount := 0, lastFailedLoginAt := None, lockedUntil := None,
                                                       lastLoginAt := Some(now))]
            && answer.Issued?
            && var sid := answer.refresh.sessionId;
               && sid !in s.store.rows && u.store.rows.Keys == s.store.rows.Keys + {sid}
               && (forall id | id in s.store.rows :: u.store.rows[id] == s.store.rows[id])
               && NewSession(cfg, u.store.rows[sid], uid, now, answer.refresh)
               && TokensFor(cfg, answer, s.users[uid], uid, sid, 1, now)
               && u.store.refreshMinted == s.store.refreshMinted + {answer.refresh}
               && u.store.accessMinted == s.store.accessMinted + {answer.access}
               && u.actionTokens == s.actionTokens
  {
    hide Text.Normalize, DistinctEmails;
    FoundOwner(s.users, uid, Text.Normalize(e.request.email));
  }

  /** A wrong password counts, and locks from the maxFailedLogins-th failure on. */
  lemma WrongLoginCounts(cfg: Config, s: State, e: Event, uid: UserId)
    requires DistinctEmails(s.users) && e.request.Login? && Owner(s.users, uid, Text.Normalize(e.request.email))
    requires s.users[uid].passwordHash.Some? && s.users[uid].isActive && !LockRuns(s.users[uid], s.now + e.elapsed)
    requires !cfg.compare(Password(e.request.password), s.users[uid].passwordHash.value)
    ensures var (row, now) := (s.users[uid], s.now + e.elapsed);
            Step(cfg, s, e) ==
              (s.(now := now, users := s.users[uid := row.(failedLoginCount := row.failedLoginCount + 1, lastFailedLoginAt := Some(now),
                    lockedUntil := if row.failedLoginCount + 1 >= cfg.maxFailedLogins then Some(now + cfg.lockMinutes * 60000) else row.lockedUntil)]),
               Failed(InvalidCredentials))
  {
    hide Text.Normalize, DistinctEmails, OpenSession;
    FoundOwner(s.users, uid, Text.Normalize(e.request.email));
  }

  // ------------------------------------------------------------------ refresh

  /** An accepted refresh moves the version, the activity, the expiry and the digest of its session, and
   *  nothing else in the tables. */
  lemma RefreshRotates(cfg: Config, s: State, e: Event)
    requires e.request.Refresh? && Step(cfg, s, e).1.Issued?
    ensures var (u, answer) := Step(cfg, s, e);
            var (token, now) := (e.request.refreshToken, s.now + e.elapsed);
            && token.sessionId in s.store.rows && token.sessionId in u.store.rows && token.userId in s.users
            && var (row, row') := (s.store.rows[token.sessionId], u.store.rows[token.sessionId]);
               && row' == row.(tokenVersion := row.tokenVersion + 1, lastActiveAt := now, lastRefreshedAt := now,
                               expiresAt := Some(now + cfg.sessionLifetimeMs), refreshTokenHash := row'.refreshTokenHash)
               && row'.refreshTokenHash.secret == Jwt(answer.refresh)
               && u.store.rows == s.store.rows[token.sessionId := row']
               && TokensFor(cfg, answer, s.users[token.userId], token.userId, token.sessionId, row.tokenVersion + 1, now)
               && u.store.refreshMinted == s.store.refreshMinted + {answer.refresh}
               && u.store.accessMinted == s.store.accessMinted + {answer.access}
               && u.users == s.users && u.actionTokens == s.actionTokens
  {
    hide RevokeRows;
  }

  // ------------------------------------------------------------------ action tokens

  /** The raw token opens its row now. */
  predicate Usable(rows: TokenTable, now: Time, raw: nat, purpose: Purpose) {
    raw in rows && rows[raw].purpose == purpose && rows[raw].consumedAt.None? && now < rows[raw].expiresAt
  }

  lemma UsableMeans(s: State, raw: nat, purpose: Purpose)
    requires OneOutstanding(s.actionTokens, s.next)
    ensures ConsumableToken(s, raw, purpose) == if Usable(s.actionTokens, s.now, raw, purpose) then Some(raw) else None
  {
    var found := FindActiveByHash(s.actionTokens, Sha256(raw), purpose);
    assert found.Some? ==> found.value == raw;
    if raw in s.actionTokens && s.actionTokens[raw].purpose == purpose && s.actionTokens[raw].consumedAt.None? {
      assert Matching(s.actionTokens, raw, Sha256(raw), purpose);
    }
  }

  /** The rows after a token for (uid, purpose) was issued: the new one outstanding, others of the pair
   *  consumed, the rest as before. */
  ghost predicate IssuedFor(a: TokenTable, b: TokenTable, raw: nat, uid: UserId, purpose: Purpose, email: string, now: Time, lifetime: nat) {
    && raw !in a && b.Keys == a.Keys + {raw}
    && b[raw] == ActionToken(uid, purpose, Sha256(raw), email, now + lifetime, None, now)
    && forall id | id in a ::
         b[id] == if a[id].userId == uid && a[id].purpose == purpose && a[id].consumedAt.None? then a[id].(consumedAt := Some(now)) else a[id]
  }

  lemma CreateIssues(cfg: Config, s: State, uid: UserId, email: string, purpose: Purpose)
    requires OneOutstanding(s.actionTokens, s.next)
    ensures var lifetime := if purpose == PasswordReset then cfg.resetMinutes * 60000 else cfg.verificationHours * 3600000;
            IssuedFor(s.actionTokens, CreateToken(cfg, s, uid, email, purpose).actionTokens, s.next, uid, purpose, email, s.now, lifetime)
  {
  }

  /** Forgot-password issues a reset token to the owner of the address, and does nothing without one. */
  lemma ForgotIssues(cfg: Config, s: State, e: Event)
    requires DistinctEmails(s.users) && OneOutstanding(s.actionTokens, s.next) && e.request.ForgotPassword?
    ensures var (u, answer) := Step(cfg, s, e);
            var (now, email) := (s.now + e.elapsed, Text.Normalize(e.request.email));
            && answer == Done && u.users == s.users && u.store == s.store && u.now == now
            && (forall uid | Owner(s.users, uid, email) ::
                  IssuedFor(s.actionTokens, u.actionTokens, s.next, uid, PasswordReset, email, now, cfg.resetMinutes * 60000))
            && ((forall uid :: !Owner(s.users, uid, email)) ==> u.actionTokens == s.actionTokens)
  {
    hide Text.Normalize, CreateToken, DistinctEmails, OneOutstanding;
    var email := Text.Normalize(e.request.email);
    var t := Tick(s, e.elapsed);
    if uid :| Owner(s.users, uid, email) {
      FoundOwner(s.users, uid, email);
      CreateIssues(cfg, t, uid, email, PasswordReset);
      CreateFrame(cfg, t, uid, email, PasswordReset);
    } else {
      NobodyFound(s.users, email);
    }
  }

  /** A reset answers Done exactly for a usable reset token of a user who is not deleted. */
  lemma ResetAnswersExactly(cfg: Config, s: State, e: Event)
    requires OneOutstanding(s.actionTokens, s.next) && e.request.ResetPassword?
    ensures var (u, answer) := Step(cfg, s, e);
            var (now, raw) := (s.now + e.elapsed, e.request.raw);
            && (answer == Done <==>
                  && Usable(s.actionTokens, now, raw, PasswordReset)
                  && s.actionTokens[raw].userId in s.users && s.users[s.actionTokens[raw].userId].deletedAt.None?)
            && (answer == Failed(InvalidActionToken) <==> !Usable(s.actionTokens, now, raw, PasswordReset))
            && (!Usable(s.actionTokens, now, raw, PasswordReset) ==> u == s.(now := now))
  {
    hide RevokeRows, OneOutstanding, ConsumableToken;
    UsableMeans(Tick(s, e.elapsed), e.request.raw, PasswordReset);
  }

  /** An accepted reset stores a digest of the new password, clears failures and lock, consumes the token
   *  and revokes every open session of the user. */
  lemma ResetStores(cfg: Config, s: State, e: Event)
    requires OneOutstanding(s.actionTokens, s.next) && e.request.ResetPassword? && Step(cfg, s, e).1 == Done
    ensures var (u, now, raw) := (Step(cfg, s, e).0, s.now + e.elapsed, e.request.raw);
            && raw in s.actionTokens
            && var uid := s.actionTokens[raw].userId;
               && uid in s.users && uid in u.users
               && HoldsPassword(u.users[uid], e.request.newPassword)
               && u.users == s.users[uid := s.users[uid].(passwordHash := u.users[uid].passwordHash, passwordChangedAt := Some(now),
                                                          failedLoginCount := 0, lastFailedLoginAt := None, lockedUntil := None)]
               && u.actionTokens == s.actionTokens[raw := s.actionTokens[raw].(consumedAt := Some(now))]
               && ClosedFor(s.store.rows, u.store.rows, uid, None, now, LogoutAll)
  {
    hide OneOutstanding, ConsumableToken, ClosedFor, RevokeRows;
    var t := Tick(s, e.elapsed);
    UsableMeans(t, e.request.raw, PasswordReset);
    RevokeCloses(s.store.rows, s.actionTokens[e.request.raw].userId, None, t.now, LogoutAll);
  }

  /** The stored digest was made from the text. */
  predicate HoldsPassword(user: User, text: string) {
    user.passwordHash.Some? && user.passwordHash.value.secret == Password(text)
  }

  /** Exactly the open sessions of the user, but the spared one, are revoked now for the reason. */
  ghost predicate ClosedFor(a: map<SessionId, Session>, b: map<SessionId, Session>, uid: UserId, spared: Option<SessionId>, now: Time, reason: Reason) {
    && b.Keys == a.Keys
    && forall sid | sid in a ::
         b[sid] == if a[sid].userId == uid && a[sid].revokedAt.None? && spared != Some(sid)
                   then a[sid].(revokedAt := Some(now), revokedReason := Some(reason), compromisedAt := b[sid].compromisedAt)
                   else a[sid]
  }

  lemma RevokeCloses(rows: map<SessionId, Session>, uid: UserId, spared: Option<SessionId>, now: Time, reason: Reason)
    ensures ClosedFor(rows, RevokeRows(rows, uid, now, reason, spared, None), uid, spared, now, reason)
  {
  }

  lemma RevokeUserCloses(rows: map<SessionId, Session>, uid: UserId, now: Time, reason: Reason)
    ensures ClosedFor(rows, RevokeUserRows(rows, uid, now, reason), uid, None, now, reason)
  {
  }

  /** A verification answers Done exactly for a usable token of a user who is not deleted, and then marks
   *  that user verified now and consumes the token, and changes nothing else. */
  lemma VerifyMarks(cfg: Config, s: State, e: Event)
    requires OneOutstanding(s.actionTokens, s.next) && e.request.VerifyEmail?
    ensures var (u, answer) := Step(cfg, s, e);
            var (now, raw) := (s.now + e.elapsed, e.request.raw);
            && (answer == Done <==>
                  && Usable(s.actionTokens, now, raw, EmailVerification)
                  && s.actionTokens[raw].userId in s.users && s.users[s.actionTokens[raw].userId].deletedAt.None?)
            && (answer == Failed(InvalidActionToken) <==> !Usable(s.actionTokens, now, raw, EmailVerification))
            && (!Usable(s.actionTokens, now, raw, EmailVerification) ==> u == s.(now := now))
            && (answer == Done ==>
                  var uid := s.actionTokens[raw].userId;
                  u == s.(now := now, users := s.users[uid := s.users[uid].(emailVerifiedAt := Some(now))],
                          actionTokens := s.actionTokens[raw := s.actionTokens[raw].(consumedAt := Some(now))]))
  {
    hide OneOutstanding, ConsumableToken;
    UsableMeans(Tick(s, e.elapsed), e.request.raw, EmailVerification);
  }

  /** The token of a user who is gone is used up all the same, and nothing else happens. */
  lemma OrphanTokenUsedUp(cfg: Config, s: State, e: Event)
    requires OneOutstanding(s.actionTokens, s.next) && (e.request.ResetPassword? || e.request.VerifyEmail?)
    requires Usable(s.actionTokens, s.now + e.elapsed, e.request.raw, if e.request.ResetPassword? then PasswordReset else EmailVerification)
    requires var uid := s.actionTokens[e.request.raw].userId; !(uid in s.users && s.users[uid].deletedAt.None?)
    ensures var (now, raw) := (s.now + e.elapsed, e.request.raw);
            Step(cfg, s, e) == (s.(now := now, actionTokens := s.actionTokens[raw := s.actionTokens[raw].(consumedAt := Some(now))]), Failed(NotFound))
  {
    hide RevokeRows, OneOutstanding, ConsumableToken;
    UsableMeans(Tick(s, e.elapsed), e.request.raw, if e.request.ResetPassword? then PasswordReset else EmailVerification);
  }

  // ------------------------------------------------------------------ requests behind the guard

  /** The guard lets a request through: a signed, unexpired token of a live session of its user. */
  predicate LetThrough(s: State, now: Time, token: AccessToken) {
    && token in s.store.accessMinted && now / 1000 < token.expSeconds
    && token.sessionId in s.store.rows
    && var row := s.store.rows[token.sessionId];
       row.revokedAt.None? && row.userId == token.userId && (row.expiresAt.None? || now < row.expiresAt.value)
  }

  /** The rows once the guard has touched the session: its activity is now, unless the throttle key lives. */
  function TouchedRows(s: State, now: Time, sid: SessionId): map<SessionId, Session> {
    if sid in s.store.rows && s.store.rows[sid].revokedAt.None? && !(sid in s.store.touched && now < s.store.touched[sid])
    then s.store.rows[sid := s.store.rows[sid].(lastActiveAt := now)]
    else s.store.rows
  }

  /** The state in which a guarded request is handled. */
  ghost function Guarding(cfg: Config, s: State, e: Event): State
    requires Guarded(e.request)
  {
    Touch(cfg, Tick(s, e.elapsed), TokenOf(e.request).sessionId)
  }

  /** A guarded request is refused without effect exactly when the guard does not let it through; what it
   *  does otherwise starts from the touched rows and the tables as they were. */
  lemma GuardDecides(cfg: Config, s: State, e: Event)
    requires Guarded(e.request)
    ensures var (u, answer, now, token) := (Step(cfg, s, e).0, Step(cfg, s, e).1, s.now + e.elapsed, TokenOf(e.request));
            var t := Guarding(cfg, s, e);
            && (!LetThrough(s, now, token) ==> u == s.(now := now) && answer == Failed(SessionNotActive))
            && (LetThrough(s, now, token) ==> (u, answer) == Handle(cfg, t, e.request))
            && t.users == s.users && t.actionTokens == s.actionTokens && t.next == s.next && t.now == now && t.setter == s.setter
            && t.store.rows == TouchedRows(s, now, token.sessionId)
            && t.store == s.store.(rows := t.store.rows, touched := t.store.touched)
  {
    hide Handle;
  }

  /** Authorizing answers Done exactly when the guard lets the token through, and leaves the touched rows. */
  lemma AuthorizeAnswers(cfg: Config, s: State, e: Event)
    requires e.request.Authorize?
    ensures var (u, answer, now) := (Step(cfg, s, e).0, Step(cfg, s, e).1, s.now + e.elapsed);
            && (answer == Done <==> LetThrough(s, now, e.request.token))
            && (answer == Done ==> u.users == s.users && u.store.rows == TouchedRows(s, now, e.request.token.sessionId))
  {
    hide Touch;
    GuardDecides(cfg, s, e);
  }

  /** A logout revokes the session it was sent with, a logout of all every open session of the user. */
  lemma LogoutCloses(cfg: Config, s: State, e: Event)
    requires e.request.Logout? || e.request.LogoutAllSessions?
    requires LetThrough(s, s.now + e.elapsed, e.request.token)
    ensures var (u, answer, now, token) := (Step(cfg, s, e).0, Step(cfg, s, e).1, s.now + e.elapsed, e.request.token);
            var rows := TouchedRows(s, now, token.sessionId);
            && answer == Done && u.users == s.users && u.actionTokens == s.actionTokens
            && (e.request.Logout? ==>
                  u.store.rows == rows[token.sessionId := rows[token.sessionId].(revokedAt := Some(now), revokedReason := Some(LogoutCurrent))])
            && (e.request.LogoutAllSessions? ==> ClosedFor(rows, u.store.rows, token.userId, None, now, LogoutAll))
            && token.sessionId in u.store.rows && u.store.rows[token.sessionId].revokedAt == Some(now)
  {
    hide Touch, RevokeRows;
    GuardDecides(cfg, s, e);
    var t := Guarding(cfg, s, e);
    RevokeCloses(t.store.rows, e.request.token.userId, None, t.now, LogoutAll);
  }

  /** Revoking one session closes the named one if it is the caller's, and nothing otherwise. */
  lemma RevokeOneCloses(cfg: Config, s: State, e: Event)
    requires e.request.RevokeSession? && LetThrough(s, s.now + e.elapsed, e.request.token)
    ensures var (u, answer, now, token, sid) :=
              (Step(cfg, s, e).0, Step(cfg, s, e).1, s.now + e.elapsed, e.request.token, e.request.sessionId);
            var rows := TouchedRows(s, now, token.sessionId);
            && (answer == Done <==> sid in s.store.rows && s.store.rows[sid].userId == token.userId)
            && (answer != Done ==> answer == Failed(NotFound) && u.store.rows == rows)
            && (answer == Done ==>
                  u.store.rows == if rows[sid].revokedAt.Some? then rows
                                  else rows[sid := rows[sid].(revokedAt := Some(now), revokedReason := Some(ManualRevoke))])
            && u.users == s.users && u.actionTokens == s.actionTokens
  {
    hide Touch;
    GuardDecides(cfg, s, e);
  }

  /** A resend issues a verification token for the present address of a user who is not verified. */
  lemma ResendIssues(cfg: Config, s: State, e: Event)
    requires OneOutstanding(s.actionTokens, s.next)
    requires e.request.ResendVerification? && LetThrough(s, s.now + e.elapsed, e.request.token)
    ensures var (u, answer, now, uid) := (Step(cfg, s, e).0, Step(cfg, s, e).1, s.now + e.elapsed, e.request.token.userId);
            var live := uid in s.users && s.users[uid].deletedAt.None?;
            && answer == (if live then Done else Failed(NotFound))
            && (if live && s.users[uid].emailVerifiedAt.None?
                then && u.users == s.users[uid := s.users[uid].(verificationEmailSentAt := Some(now))]
                     && IssuedFor(s.actionTokens, u.actionTokens, s.next, uid, EmailVerification, s.users[uid].email, now,
                                  cfg.verificationHours * 3600000)
                else u.users == s.users && u.actionTokens == s.actionTokens)
  {
    hide Touch, CreateToken, OneOutstanding;
    GuardDecides(cfg, s, e);
    var t, uid := Guarding(cfg, s, e), e.request.token.userId;
    if uid in s.users {
      CreateIssues(cfg, t, uid, s.users[uid].email, EmailVerification);
      CreateFrame(cfg, t, uid, s.users[uid].email, EmailVerification);
    }
  }

  // ------------------------------------------------------------------ profile change

  predicate SetsPassword(change: ProfileChange) { Truthy(change.currentPassword) && Truthy(change.newPassword) }

  predicate MovesEmail(user: User, change: ProfileChange) { Truthy(change.email) && change.email.value != user.email }

  /** A profile change is accepted exactly when the user is there, the passwords check out, the new address
   *  is nobody else's and the avatar is not rejected. */
  lemma ProfileAnswersExactly(cfg: Config, s: State, e: Event)
    requires DistinctEmails(s.users) && e.request.UpdateProfile? && LetThrough(s, s.now + e.elapsed, e.request.token)
    ensures var (uid, change) := (e.request.token.userId, e.request.change);
            Step(cfg, s, e).1 == Done <==>
              && uid in s.users && s.users[uid].deletedAt.None?
              && (Truthy(change.newPassword) ==>
                    && Truthy(change.currentPassword) && s.users[uid].passwordHash.Some?
                    && cfg.compare(Password(change.currentPassword.value), s.users[uid].passwordHash.value))
              && (MovesEmail(s.users[uid], change) ==> !Taken(s.users, uid, Text.Lower(change.email.value)))
              && !change.avatar.AvatarRejected?
  {
    hide Touch, RevokeRows, CreateToken, Text.Lower, EmailTaken, DistinctEmails, Taken;
    GuardDecides(cfg, s, e);
    var t, uid, change := Guarding(cfg, s, e), e.request.token.userId, e.request.change;
    if uid in s.users && Truthy(change.email) {
      var (t1, user) := ProfilePassword(cfg, t, e.request.token, change);
      assert t1.users == s.users;
      TakenMeans(t1, uid, Text.Lower(change.email.value));
    }
  }

  /** The row that an accepted profile change leaves, column by column. */
  ghost predicate ProfileRow(a: User, b: User, change: ProfileChange, now: Time) {
    && (if SetsPassword(change) then HoldsPassword(b, change.newPassword.value) && b.passwordChangedAt == Some(now)
        else b.passwordHash == a.passwordHash && b.passwordChangedAt == a.passwordChangedAt)
    && (if MovesEmail(a, change)
        then b.email == Text.Lower(change.email.value) && b.emailVerifiedAt.None? && b.verificationEmailSentAt == Some(now)
        else b.email == a.email && b.emailVerifiedAt == a.emailVerifiedAt && b.verificationEmailSentAt == a.verificationEmailSentAt)
    && b.avatarKey == (if change.avatar.AvatarKey? then change.avatar.key else a.avatarKey)
    && b.isActive == a.isActive && b.deletedAt == a.deletedAt && b.lastLoginAt == a.lastLoginAt
    && b.failedLoginCount == a.failedLoginCount && b.lastFailedLoginAt == a.lastFailedLoginAt && b.lockedUntil == a.lockedUntil
  }

  /** An accepted profile change leaves that row and nobody else's changed; a new password closes the user's
   *  other sessions, and a new address is sent a token. */
  lemma ProfileStores(cfg: Config, s: State, e: Event)
    requires OneOutstanding(s.actionTokens, s.next)
    requires e.request.UpdateProfile? && LetThrough(s, s.now + e.elapsed, e.request.token) && Step(cfg, s, e).1 == Done
    ensures var (u, now, token, change) := (Step(cfg, s, e).0, s.now + e.elapsed, e.request.token, e.request.change);
            var uid := token.userId;
            var rows := TouchedRows(s, now, token.sessionId);
            && uid in s.users && uid in u.users && u.users == s.users[uid := u.users[uid]]
            && ProfileRow(s.users[uid], u.users[uid], change, now)
            && (if SetsPassword(change) then ClosedFor(rows, u.store.rows, uid, Some(token.sessionId), now, PasswordChanged) else u.store.rows == rows)
            && (if MovesEmail(s.users[uid], change)
                then IssuedFor(s.actionTokens, u.actionTokens, if SetsPassword(change) then s.next + 1 else s.next, uid, EmailVerification,
                               Text.Lower(change.email.value), now, cfg.verificationHours * 3600000)
                else u.actionTokens == s.actionTokens)
  {
    hide Touch, RevokeRows, CreateToken, Text.Lower, EmailTaken, OneOutstanding, ClosedFor, IssuedFor;
    GuardDecides(cfg, s, e);
    var t, token, change := Guarding(cfg, s, e), e.request.token, e.request.change;
    ProfileHandled(cfg, t, token, change);
  }

  /** The row between the password part and the e-mail part. */
  ghost predicate PasswordRow(a: User, b: User, change: ProfileChange, now: Time) {
    && b == a.(passwordHash := b.passwordHash, passwordChangedAt := b.passwordChangedAt)
    && (if SetsPassword(change) then HoldsPassword(b, change.newPassword.value) && b.passwordChangedAt == Some(now) else b == a)
  }

  lemma PasswordHandled(cfg: Config, s: State, token: AccessToken, change: ProfileChange)
    requires token.userId in s.users && ProfilePassword(cfg, s, token, change).1.Some?
    ensures var (s1, user) := (ProfilePassword(cfg, s, token, change).0, ProfilePassword(cfg, s, token, change).1.value);
            && PasswordRow(s.users[token.userId], user, change, s.now)
            && s1.users == s.users && s1.actionTokens == s.actionTokens && s1.now == s.now
            && s1.next == (if SetsPassword(change) then s.next + 1 else s.next)
            && (if SetsPassword(change) then ClosedFor(s.store.rows, s1.store.rows, token.userId, Some(token.sessionId), s.now, PasswordChanged)
                else s1.store.rows == s.store.rows)
  {
    hide RevokeRows, ClosedFor;
    RevokeCloses(s.store.rows, token.userId, Some(token.sessionId), s.now, PasswordChanged);
  }

  lemma EmailHandled(cfg: Config, s: State, uid: UserId, user: User, change: ProfileChange)
    requires OneOutstanding(s.actionTokens, s.next) && ProfileEmail(cfg, s, uid, user, change.email).1.Some?
    ensures var (s2, user2) := (ProfileEmail(cfg, s, uid, user, change.email).0, ProfileEmail(cfg, s, uid, user, change.email).1.value);
            && s2.users == s.users && s2.store == s.store && s2.now == s.now
            && (if MovesEmail(user, change)
                then && user2 == user.(email := Text.Lower(change.email.value), emailVerifiedAt := None, verificationEmailSentAt := Some(s.now))
                     && IssuedFor(s.actionTokens, s2.actionTokens, s.next, uid, EmailVerification, Text.Lower(change.email.value), s.now,
                                  cfg.verificationHours * 3600000)
                else user2 == user && s2.actionTokens == s.actionTokens)
  {
    hide CreateToken, Text.Lower, EmailTaken, OneOutstanding, IssuedFor;
    if MovesEmail(user, change) {
      CreateIssues(cfg, s, uid, Text.Lower(change.email.value), EmailVerification);
      CreateFrame(cfg, s, uid, Text.Lower(change.email.value), EmailVerification);
    }
  }

  lemma ProfileHandled(cfg: Config, s: State, token: AccessToken, change: ProfileChange)
    requires OneOutstanding(s.actionTokens, s.next) && DoUpdateProfile(cfg, s, token, change).1 == Done
    ensures var (u, uid) := (DoUpdateProfile(cfg, s, token, change).0, token.userId);
            && uid in s.users && uid in u.users && u.users == s.users[uid := u.users[uid]]
            && ProfileRow(s.users[uid], u.users[uid], change, s.now)
            && (if SetsPassword(change) then ClosedFor(s.store.rows, u.store.rows, uid, Some(token.sessionId), s.now, PasswordChanged)
                else u.store.rows == s.store.rows)
            && (if MovesEmail(s.users[uid], change)
                then IssuedFor(s.actionTokens, u.actionTokens, if SetsPassword(change) then s.next + 1 else s.next, uid, EmailVerification,
                               Text.Lower(change.email.value), s.now, cfg.verificationHours * 3600000)
                else u.actionTokens == s.actionTokens)
  {
    hide ProfilePassword, ProfileEmail, Text.Lower, OneOutstanding, ClosedFor, IssuedFor;
    PasswordHandled(cfg, s, token, change);
    var (s1, user) := ProfilePassword(cfg, s, token, change);
    LaterOneOutstanding(s.actionTokens, s.next);
    EmailHandled(cfg, s1, token.userId, user.value, change);
  }

  /** What a rejected profile change answers and has done by then.  No row of a user changes; but once the
   *  present password was right, the other sessions are closed, and once the address was free, a token for
   *  it is out, even though the change is rejected after that. */
  lemma ProfileRejected(cfg: Config, s: State, e: Event)
    requires DistinctEmails(s.users) && OneOutstanding(s.actionTokens, s.next)
    requires e.request.UpdateProfile? && LetThrough(s, s.now + e.elapsed, e.request.token) && Step(cfg, s, e).1 != Done
    ensures var (u, answer, now, token, change) := (Step(cfg, s, e).0, Step(cfg, s, e).1, s.now + e.elapsed, e.request.token, e.request.change);
            var (uid, rows) := (token.userId, TouchedRows(s, now, token.sessionId));
            && u.users == s.users
            && (if !(uid in s.users && s.users[uid].deletedAt.None?)
                then answer == Failed(NotFound) && u.store.rows == rows && u.actionTokens == s.actionTokens
                else if Truthy(change.newPassword) && !Truthy(change.currentPassword)
                then answer == Failed(BadRequest) && u.store.rows == rows && u.actionTokens == s.actionTokens
                else if SetsPassword(change) && !PasswordRight(cfg, s.users[uid], change.currentPassword.value)
                then answer == Failed(Forbidden) && u.store.rows == rows && u.actionTokens == s.actionTokens
                else
                  && (if SetsPassword(change) then ClosedFor(rows, u.store.rows, uid, Some(token.sessionId), now, PasswordChanged) else u.store.rows == rows)
                  && (if MovesEmail(s.users[uid], change) && Taken(s.users, uid, Text.Lower(change.email.value))
                      then answer == Failed(Conflict) && u.actionTokens == s.actionTokens
                      else && answer == Failed(BadRequest)
                           && (if MovesEmail(s.users[uid], change)
                               then IssuedFor(s.actionTokens, u.actionTokens, if SetsPassword(change) then s.next + 1 else s.next, uid,
                                              EmailVerification, Text.Lower(change.email.value), now, cfg.verificationHours * 3600000)
                               else u.actionTokens == s.actionTokens)))
  {
    hide Touch, RevokeRows, CreateToken, Text.Lower, EmailTaken, DistinctEmails, Taken, OneOutstanding, ClosedFor, IssuedFor;
    GuardDecides(cfg, s, e);
    var t, token, change := Guarding(cfg, s, e), e.request.token, e.request.change;
    if LiveUser(t, token.userId) && ProfilePassword(cfg, t, token, change).1.Some? {
      PasswordHandled(cfg, t, token, change);
      var (t1, user) := ProfilePassword(cfg, t, token, change);
      LaterOneOutstanding(t.actionTokens, t.next);
      if Truthy(change.email) {
        TakenMeans(t1, token.userId, Text.Lower(change.email.value));
      }
      if ProfileEmail(cfg, t1, token.userId, user.value, change.email).1.Some? {
        EmailHandled(cfg, t1, token.userId, user.value, change);
      }
    }
  }

  predicate PasswordRight(cfg: Config, user: User, password: string) {
    user.passwordHash.Some? && cfg.compare(Password(password), user.passwordHash.value)
  }

  // ------------------------------------------------------------------ administration

  /** A create is accepted exactly when the address is free and the listed roles and brands exist, and then
   *  adds one row under an unused id: active unless said otherwise, not verified, with the password. */
  lemma CreateAdds(cfg: Config, s: State, e: Event)
    requires IdsDrawn(s) && e.request.CreateUser? && LetThrough(s, s.now + e.elapsed, e.request.token)
    ensures var (u, answer, now, dto) := (Step(cfg, s, e).0, Step(cfg, s, e).1, s.now + e.elapsed, e.request.newUser);
            var email := Text.Normalize(dto.email);
            && (answer == Done <==> (forall uid :: !Owner(s.users, uid, email)) && dto.rolesKnown && dto.brandsKnown)
            && (answer == Failed(Conflict) <==> exists uid :: Owner(s.users, uid, email))
            && (answer == Done || answer == Failed(Conflict) || answer == Failed(BadRequest))
            && (answer != Done ==> u.users == s.users)
            && (answer == Done ==>
                  && s.next !in s.users && s.next in u.users && u.users == s.users[s.next := u.users[s.next]]
                  && HoldsPassword(u.users[s.next], dto.password)
                  && u.users[s.next] == User(email, u.users[s.next].passwordHash, dto.isActive != Some(false), None, 0, None, None, None,
                                             Some(now), None, None, None))
            && u.store.rows == TouchedRows(s, now, e.request.token.sessionId) && u.actionTokens == s.actionTokens
  {
    hide Touch, Text.Normalize;
    GuardDecides(cfg, s, e);
    var email := Text.Normalize(e.request.newUser.email);
    if forall uid :: !Owner(s.users, uid, email) {
      NobodyFound(s.users, email);
    } else {
      var uid :| Owner(s.users, uid, email);
      assert HasEmail(s.users, uid, email);
    }
  }

  predicate MovesAddress(user: User, change: UserChange) {
    change.email.Some? && change.email.value != "" && Text.Normalize(change.email.value) != user.email
  }

  /** An admin change is accepted exactly when the user is there, a new address is nobody else's and the
   *  listed roles and brands exist. */
  lemma UpdateAnswersExactly(cfg: Config, s: State, e: Event)
    requires DistinctEmails(s.users) && e.request.UpdateUser? && LetThrough(s, s.now + e.elapsed, e.request.token)
    ensures var (id, change) := (e.request.id, e.request.userChange);
            Step(cfg, s, e).1 == Done <==>
              && id in s.users && s.users[id].deletedAt.None?
              && (MovesAddress(s.users[id], change) ==> !Taken(s.users, id, Text.Normalize(change.email.value)))
              && change.rolesKnown && change.brandsKnown
  {
    hide Touch, RevokedByUpdate, EditedUser, DropTokensOf, Text.Normalize, EmailTaken, DistinctEmails, Taken;
    GuardDecides(cfg, s, e);
    var t, id, change := Guarding(cfg, s, e), e.request.id, e.request.userChange;
    if id in s.users && change.email.Some? {
      TakenMeans(t, id, Text.Normalize(change.email.value));
    }
  }

  /** The row that an accepted admin change leaves, column by column. */
  ghost predicate EditedRow(a: User, b: User, change: UserChange, now: Time) {
    && b.isActive == (if change.isActive.Some? then change.isActive.value else a.isActive)
    && (if change.password.Some? then HoldsPassword(b, change.password.value) && b.passwordChangedAt == Some(now)
        else b.passwordHash == a.passwordHash && b.passwordChangedAt == a.passwordChangedAt)
    && (if MovesAddress(a, change)
        then b.email == Text.Normalize(change.email.value) && b.emailVerifiedAt.None? && b.verificationEmailSentAt.None?
        else b.email == a.email && b.emailVerifiedAt == a.emailVerifiedAt && b.verificationEmailSentAt == a.verificationEmailSentAt)
    && b.deletedAt == a.deletedAt && b.lastLoginAt == a.lastLoginAt && b.avatarKey == a.avatarKey
    && b.failedLoginCount == a.failedLoginCount && b.lastFailedLoginAt == a.lastFailedLoginAt && b.lockedUntil == a.lockedUntil
  }

  /** The user has no open session left, or the rows are as they were. */
  ghost predicate ClosedOr(a: map<SessionId, Session>, b: map<SessionId, Session>, uid: UserId, closes: bool) {
    && b.Keys == a.Keys
    && (forall sid | sid in a && (!closes || a[sid].userId != uid || a[sid].revokedAt.Some?) :: b[sid] == a[sid])
    && (closes ==> forall sid | sid in b && b[sid].userId == uid :: b[sid].revokedAt.Some?)
  }

  /** An accepted admin change leaves that row and nobody else's changed; deactivation and a new password
   *  close the user's sessions, and a new address drops the user's tokens. */
  lemma UpdateStores(cfg: Config, s: State, e: Event)
    requires e.request.UpdateUser? && LetThrough(s, s.now + e.elapsed, e.request.token) && Step(cfg, s, e).1 == Done
    ensures var (u, now, id, change) := (Step(cfg, s, e).0, s.now + e.elapsed, e.request.id, e.request.userChange);
            && id in s.users && id in u.users && u.users == s.users[id := u.users[id]]
            && EditedRow(s.users[id], u.users[id], change, now)
            && ClosedOr(TouchedRows(s, now, e.request.token.sessionId), u.store.rows, id, change.isActive == Some(false) || change.password.Some?)
            && (if MovesAddress(s.users[id], change)
                then forall k :: (k in u.actionTokens <==> k in s.actionTokens && s.actionTokens[k].userId != id)
                                 && (k in u.actionTokens ==> u.actionTokens[k] == s.actionTokens[k])
                else u.actionTokens == s.actionTokens)
  {
    hide Touch, RevokedByUpdate, EditedUser, Text.Normalize, EmailTaken, ClosedOr, EditedRow;
    GuardDecides(cfg, s, e);
    var t, id, change := Guarding(cfg, s, e), e.request.id, e.request.userChange;
    EditLeaves(s.users[id], change, t.now, t.next);
    EditCloses(t.store.rows, id, change, t.now);
  }

  /** What a rejected admin change answers and has done by then: with unknown roles or brands the sessions are
   *  closed and the tokens dropped already, but the user's row is as before. */
  lemma UpdateRejected(cfg: Config, s: State, e: Event)
    requires DistinctEmails(s.users) && e.request.UpdateUser? && LetThrough(s, s.now + e.elapsed, e.request.token)
    requires Step(cfg, s, e).1 != Done
    ensures var (u, answer, now, id, change) := (Step(cfg, s, e).0, Step(cfg, s, e).1, s.now + e.elapsed, e.request.id, e.request.userChange);
            var rows := TouchedRows(s, now, e.request.token.sessionId);
            && u.users == s.users
            && (if !(id in s.users && s.users[id].deletedAt.None?)
                then answer == Failed(NotFound) && u.store.rows == rows && u.actionTokens == s.actionTokens
                else if MovesAddress(s.users[id], change) && Taken(s.users, id, Text.Normalize(change.email.value))
                then answer == Failed(Conflict) && u.store.rows == rows && u.actionTokens == s.actionTokens
                else && answer == Failed(BadRequest)
                     && ClosedOr(rows, u.store.rows, id, change.isActive == Some(false) || change.password.Some?)
                     && u.actionTokens == (if MovesAddress(s.users[id], change) then TokensOfOthers(s.actionTokens, id) else s.actionTokens))
  {
    hide Touch, RevokedByUpdate, EditedUser, Text.Normalize, EmailTaken, DistinctEmails, Taken, ClosedOr;
    GuardDecides(cfg, s, e);
    var t, id, change := Guarding(cfg, s, e), e.request.id, e.request.userChange;
    if id in s.users && change.email.Some? {
      TakenMeans(t, id, Text.Normalize(change.email.value));
    }
    EditCloses(t.store.rows, id, change, t.now);
  }

  function TokensOfOthers(rows: TokenTable, id: UserId): TokenTable { map k | k in rows && rows[k].userId != id :: rows[k] }

  lemma EditLeaves(user: User, change: UserChange, now: Time, salt: nat)
    ensures EditedRow(user, EditedUser(user, change, now, salt), change, now)
  {
    hide Text.Normalize;
  }

  lemma EditCloses(rows: map<SessionId, Session>, id: UserId, change: UserChange, now: Time)
    ensures ClosedOr(rows, RevokedByUpdate(rows, id, change, now), id, change.isActive == Some(false) || change.password.Some?)
  {
    hide RevokeUserRows, ClosedFor;
    var rows1 := RevokeUserRows(rows, id, now, UserDeactivated);
    RevokeUserCloses(rows, id, now, UserDeactivated);
    RevokeUserCloses(rows, id, now, PasswordChangedByAdmin);
    RevokeUserCloses(rows1, id, now, PasswordChangedByAdmin);
    ClosedOnce(rows, rows1, id, now, UserDeactivated);
    ClosedOnce(rows, RevokeUserRows(rows, id, now, PasswordChangedByAdmin), id, now, PasswordChangedByAdmin);
    ClosedOnce(rows1, RevokeUserRows(rows1, id, now, PasswordChangedByAdmin), id, now, PasswordChangedByAdmin);
  }

  lemma ClosedOnce(a: map<SessionId, Session>, b: map<SessionId, Session>, uid: UserId, now: Time, reason: Reason)
    requires ClosedFor(a, b, uid, None, now, reason)
    ensures ClosedOr(a, b, uid, true)
    ensures forall sid | sid in a :: b[sid].userId == a[sid].userId
  {
  }

  /** A removal is accepted exactly for another user who is there, deactivates and deletes the row now, and
   *  closes every session of that user; no lookup finds the address any more. */
  lemma RemoveHides(cfg: Config, s: State, e: Event)
    requires DistinctEmails(s.users) && e.request.RemoveUser? && LetThrough(s, s.now + e.elapsed, e.request.token)
    ensures var (u, answer, now, id) := (Step(cfg, s, e).0, Step(cfg, s, e).1, s.now + e.elapsed, e.request.id);
            && (answer == Done <==> id != e.request.token.userId && id in s.users && s.users[id].deletedAt.None?)
            && (answer == Failed(Forbidden) <==> id == e.request.token.userId)
            && (answer == Done || answer == Failed(Forbidden) || answer == Failed(NotFound))
            && (answer != Done ==> u.users == s.users && u.store.rows == TouchedRows(s, now, e.request.token.sessionId))
            && (answer == Done ==>
                  && u.users == s.users[id := s.users[id].(isActive := false, deletedAt := Some(now))]
                  && ClosedFor(TouchedRows(s, now, e.request.token.sessionId), u.store.rows, id, None, now, UserDeleted)
                  && forall uid :: !Owner(u.users, uid, s.users[id].email))
            && u.actionTokens == s.actionTokens
  {
    hide Touch, RevokeUserRows, ClosedFor;
    GuardDecides(cfg, s, e);
    var t := Guarding(cfg, s, e);
    RevokeUserCloses(t.store.rows, e.request.id, t.now, UserDeleted);
  }

  // ------------------------------------------------------------------ cleanups

  /** The cleanups keep exactly the rows that are neither expired nor closed before now, as they are. */
  lemma CleanupsKeepExactly(cfg: Config, s: State, e: Event)
    requires e.request.CleanupSessions? || e.request.CleanupTokens? || e.request.Idle?
    ensures var (u, now) := (Step(cfg, s, e).0, s.now + e.elapsed);
            && u == s.(now := now, actionTokens := u.actionTokens, store := s.store.(rows := u.store.rows))
            && (forall sid :: sid in u.store.rows <==>
                  && sid in s.store.rows
                  && (e.request.CleanupSessions? ==>
                        && (s.store.rows[sid].revokedAt.None? || now <= s.store.rows[sid].revokedAt.value)
                        && (s.store.rows[sid].expiresAt.None? || now <= s.store.rows[sid].expiresAt.value)))
            && (forall sid | sid in u.store.rows :: u.store.rows[sid] == s.store.rows[sid])
            && (forall raw :: raw in u.actionTokens <==>
                  && raw in s.actionTokens
                  && (e.request.CleanupTokens? ==>
                        && now <= s.actionTokens[raw].expiresAt
                        && (s.actionTokens[raw].consumedAt.None? || now <= s.actionTokens[raw].consumedAt.value)))
            && (forall raw | raw in u.actionTokens :: u.actionTokens[raw] == s.actionTokens[raw])
  {
  }

  // ------------------------------------------------------------------ the password that was set opens the account

  /** With a digest of a text in the row, a login under the row's address is accepted exactly when the user
   *  is active, no lock runs and the given password matches that digest; the text itself does. */
  lemma StoredPasswordOpens(cfg: Config, s: State, f: Event, uid: UserId, text: string)
    requires ValidConfig(cfg) && DistinctEmails(s.users) && f.request.Login?
    requires Owner(s.users, uid, Text.Normalize(f.request.email)) && HoldsPassword(s.users[uid], text)
    ensures var (user, answer) := (s.users[uid], Step(cfg, s, f).1);
            && (answer.Issued? <==>
                  && user.isActive && !LockRuns(user, s.now + f.elapsed)
                  && cfg.compare(Password(f.request.password), user.passwordHash.value))
            && (f.request.password == text ==> cfg.compare(Password(f.request.password), user.passwordHash.value))
  {
    hide Step, Text.Normalize, DistinctEmails;
    LoginAnswersExactly(cfg, s, f);
    OnlyCandidate(cfg, s.users, s.now + f.elapsed, f.request.email, f.request.password, uid);
    var digest := s.users[uid].passwordHash.value;
    assert digest == Digest(Password(text), digest.salt);
  }

  /** The login of uid after the request e, by the row that e leaves. */
  ghost predicate OpensWith(cfg: Config, s: State, e: Event, uid: UserId, text: string) {
    var u := Step(cfg, s, e).0;
    && uid in u.users && u.users[uid].passwordHash.Some?
    && forall f: Event | f.request.Login? && Text.Normalize(f.request.email) == u.users[uid].email && u.users[uid].deletedAt.None? ::
         && (Step(cfg, u, f).1.Issued? <==>
               && u.users[uid].isActive && !LockRuns(u.users[uid], u.now + f.elapsed)
               && cfg.compare(Password(f.request.password), u.users[uid].passwordHash.value))
         && (f.request.password == text ==> cfg.compare(Password(text), u.users[uid].passwordHash.value))
  }

  lemma HeldOpens(cfg: Config, s: State, e: Event, uid: UserId, text: string)
    requires ValidConfig(cfg) && DistinctEmails(s.users)
    requires uid in Step(cfg, s, e).0.users && HoldsPassword(Step(cfg, s, e).0.users[uid], text)
    ensures OpensWith(cfg, s, e, uid, text)
  {
    hide Step, Text.Normalize, DistinctEmails;
    var u := Step(cfg, s, e).0;
    StepDistinct(cfg, s, e);
    forall f: Event | f.request.Login? && Text.Normalize(f.request.email) == u.users[uid].email && u.users[uid].deletedAt.None?
      ensures && (Step(cfg, u, f).1.Issued? <==>
                    && u.users[uid].isActive && !LockRuns(u.users[uid], u.now + f.elapsed)
                    && cfg.compare(Password(f.request.password), u.users[uid].passwordHash.value))
              && (f.request.password == text ==> cfg.compare(Password(text), u.users[uid].passwordHash.value))
    {
      StoredPasswordOpens(cfg, u, f, uid, text);
    }
  }

  /** Whose password an accepted request sets, and to what: a reset, a profile change with both passwords,
   *  an admin change with one, or a create. */
  ghost predicate SetsTo(s: State, e: Event, uid: UserId, text: string) {
    || (e.request.ResetPassword? && e.request.raw in s.actionTokens && uid == s.actionTokens[e.request.raw].userId && text == e.request.newPassword)
    || (e.request.UpdateProfile? && SetsPassword(e.request.change) && uid == e.request.token.userId && text == e.request.change.newPassword.value)
    || (e.request.UpdateUser? && e.request.userChange.password == Some(text) && uid == e.request.id)
    || (e.request.CreateUser? && uid == s.next && text == e.request.newUser.password)
  }

  /** After an accepted request that sets a password, that password logs the user in, if active and not
   *  locked, and only texts that match its digest do; after a reset no lock is left. */
  lemma NewPasswordOpens(cfg: Config, s: State, e: Event, uid: UserId, text: string)
    requires ValidConfig(cfg) && DistinctEmails(s.users) && OneOutstanding(s.actionTokens, s.next) && IdsDrawn(s)
    requires SetsTo(s, e, uid, text) && Step(cfg, s, e).1 == Done
    ensures OpensWith(cfg, s, e, uid, text)
    ensures e.request.ResetPassword? ==> Step(cfg, s, e).0.users[uid].lockedUntil.None?
  {
    hide Step, DistinctEmails, OneOutstanding, OpensWith, IssuedFor, ClosedFor, ClosedOr;
    if e.request.ResetPassword? {
      ResetStores(cfg, s, e);
    } else {
      GuardDecides(cfg, s, e);
      if e.request.UpdateProfile? {
        ProfileStores(cfg, s, e);
      } else if e.request.UpdateUser? {
        UpdateStores(cfg, s, e);
      } else {
        CreateAdds(cfg, s, e);
      }
    }
    HeldOpens(cfg, s, e, uid, text);
  }

  /** A token that forgot-password issues works: a reset with it, while it lasts, is accepted. */
  lemma ForgottenResets(cfg: Config, s: State, e: Event, f: Event, uid: UserId)
    requires DistinctEmails(s.users) && OneOutstanding(s.actionTokens, s.next)
    requires e.request.ForgotPassword? && Owner(s.users, uid, Text.Normalize(e.request.email))
    requires f.request.ResetPassword? && f.request.raw == s.next && f.elapsed < cfg.resetMinutes * 60000
    ensures Step(cfg, Step(cfg, s, e).0, f).1 == Done
  {
    hide Step, DistinctEmails, OneOutstanding, Text.Normalize;
    ForgotIssues(cfg, s, e);
    StepAdvances(cfg, s, e);
    ResetAnswersExactly(cfg, Step(cfg, s, e).0, f);
  }

  /** What these lemmas ask of a state holds in every state of every run. */
  lemma RunsMeet(cfg: Config, run: Run, k: nat)
    requires IsRun(cfg, run) && k <= |run.events|
    ensures DistinctEmails(run.states[k].users) && IdsDrawn(run.states[k])
    ensures OneOutstanding(run.states[k].actionTokens, run.states[k].next)
  {
    hide Step, Initial, DistinctEmails, OneOutstanding;
    RunState(cfg, run, k);
    AddressesDistinct(cfg, run, k);
    RunSound(cfg, run.states[0], run.events[..k]);
    RunOneOutstanding(cfg, run.states[0], run.events[..k]);
  }
}
