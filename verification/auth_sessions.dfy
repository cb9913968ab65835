/** How one request may change session rows, and what that means for whole runs: rows are added
 *  under fresh ids, token versions never fall, and a revocation is never overwritten. */
module AuthEvolution {
  import opened Wrappers
  import opened AuthModel

  /** b is a, revoked or not; a revoked row stays exactly as it was. */
  ghost predicate RowQuiet(a: Session, b: Session) {
    && b == a.(revokedAt := b.revokedAt, revokedReason := b.revokedReason, compromisedAt := b.compromisedAt)
    && (!Unrevoked(a) ==> a == b)
  }

  ghost predicate RowsQuiet(a: map<SessionId, Session>, b: map<SessionId, Session>) {
    forall sid | sid in b :: sid in a && RowQuiet(a[sid], b[sid])
  }

  lemma RevokeRowQuiet(rows: map<SessionId, Session>, sid: SessionId, now: Time, reason: Reason)
    ensures RowsQuiet(rows, RevokeRow(rows, sid, now, reason))
  {
  }

  lemma RevokeRowsQuiet(rows: map<SessionId, Session>, uid: UserId, now: Time, reason: Reason,
                        except: Option<SessionId>, compromisedAt: Option<Time>)
    ensures RowsQuiet(rows, RevokeRows(rows, uid, now, reason, except, compromisedAt))
  {
  }

  lemma RevokeUserRowsQuiet(rows: map<SessionId, Session>, uid: UserId, now: Time, reason: Reason)
    ensures RowsQuiet(rows, RevokeUserRows(rows, uid, now, reason))
  {
  }

  /** A change that issues nothing and only revokes or deletes session rows. */
  ghost predicate StoreQuiet(a: SessionStore, b: SessionStore) {
    && b == a.(rows := b.rows)
    && RowsQuiet(a.rows, b.rows)
  }

  ghost predicate Quiet(s: State, t: State) {
    s.now == t.now && s.next <= t.next && StoreQuiet(s.store, t.store)
  }

  /** What a touch and a refresh leave alone. */
  lemma TouchFrame(cfg: Config, s: State, sid: SessionId)
    ensures var t := Touch(cfg, s, sid);
            t.users == s.users && t.actionTokens == s.actionTokens && t.next == s.next && t.now == s.now && t.setter == s.setter
  {
  }

  lemma RefreshFrame(cfg: Config, s: State, token: RefreshToken)
    ensures var t := DoRefresh(cfg, s, token).0;
            t.users == s.users && t.actionTokens == s.actionTokens && s.next <= t.next && t.now == s.now && t.setter == s.setter
  {
    hide RevokeRows;
  }

  lemma UpdateProfileQuiet(cfg: Config, s: State, token: AccessToken, change: ProfileChange)
    ensures Quiet(s, DoUpdateProfile(cfg, s, token, change).0)
  {
    if LiveUser(s, token.userId) {
      var (s1, user1) := ProfilePassword(cfg, s, token, change);
      RevokeRowsQuiet(s.store.rows, token.userId, s.now, PasswordChanged, Some(token.sessionId), None);
      assert Quiet(s, s1);
      if user1.Some? {
        assert Quiet(s1, ProfileEmail(cfg, s1, token.userId, user1.value, change.email).0);
      }
    }
  }

  lemma UpdateUserQuiet(s: State, id: UserId, change: UserChange)
    ensures Quiet(s, DoUpdateUser(s, id, change).0)
  {
    RevokedByUpdateQuiet(s.store.rows, id, change, s.now);
  }

  lemma RevokedByUpdateQuiet(rows: map<SessionId, Session>, id: UserId, change: UserChange, now: Time)
    ensures RowsQuiet(rows, RevokedByUpdate(rows, id, change, now))
  {
    var rows1 := RevokeUserRows(rows, id, now, UserDeactivated);
    RevokeUserRowsQuiet(rows, id, now, UserDeactivated);
    RevokeUserRowsQuiet(rows, id, now, PasswordChangedByAdmin);
    RevokeUserRowsQuiet(rows1, id, now, PasswordChangedByAdmin);
  }

  lemma RemoveUserQuiet(s: State, token: AccessToken, id: UserId)
    ensures Quiet(s, DoRemoveUser(s, token, id).0)
  {
    RevokeUserRowsQuiet(s.store.rows, id, s.now, UserDeleted);
  }

  lemma ResetPasswordQuiet(s: State, raw: nat, newPassword: string)
    ensures Quiet(s, DoResetPassword(s, raw, newPassword).0)
  {
    match ConsumableToken(s, raw, PasswordReset)
    case None =>
    case Some(id) => RevokeRowsQuiet(s.store.rows, s.actionTokens[id].userId, s.now, LogoutAll, None, None);
  }

  lemma CreationsQuiet(cfg: Config, s: State, uid: UserId, newUser: NewUser)
    ensures Quiet(s, DoResendVerification(cfg, s, uid).0)
    ensures Quiet(s, DoCreateUser(s, newUser).0)
  {
  }

  /** Everything behind the guard is quiet once the session has been touched. */
  lemma HandleQuiet(cfg: Config, s: State, r: Request)
    requires Guarded(r)
    ensures Quiet(s, Handle(cfg, s, r).0)
  {
    match r
    case Authorize(_) =>
    case Logout(token) => RevokeRowQuiet(s.store.rows, token.sessionId, s.now, LogoutCurrent);
    case LogoutAllSessions(token) => RevokeRowsQuiet(s.store.rows, token.userId, s.now, LogoutAll, None, None);
    case RevokeSession(token, sid) => RevokeRowQuiet(s.store.rows, sid, s.now, ManualRevoke);
    case ResendVerification(token) => CreationsQuiet(cfg, s, token.userId, NewUser("", "", None, true, true));
    case UpdateProfile(token, change) => UpdateProfileQuiet(cfg, s, token, change);
    case CreateUser(token, newUser) => CreationsQuiet(cfg, s, token.userId, newUser);
    case UpdateUser(token, id, change) => UpdateUserQuiet(s, id, change);
    case RemoveUser(token, id) => RemoveUserQuiet(s, token, id);
  }

  ghost predicate Opens(cfg: Config, s: State, r: Request) {
    r.Login? && DoLogin(cfg, s, r.email, r.password).1.Issued?
  }

  ghost predicate Rotates(cfg: Config, s: State, r: Request) {
    r.Refresh? && DoRefresh(cfg, s, r.refreshToken).1.Issued?
  }

  ghost predicate Touches(s: State, r: Request) {
    Guarded(r) && Admits(s, TokenOf(r))
  }

  /** The row a successful login opens its session for. */
  ghost function LoginUser(s: State, r: Request): (uid: UserId)
    requires r.Login? && FindByEmail(s.users, Text.Normalize(r.email)).Some?
    ensures LiveUser(s, uid)
  {
    FindByEmail(s.users, Text.Normalize(r.email)).value
  }

  ghost function LoggedIn(s: State, uid: UserId): State
    requires uid in s.users
  {
    SaveUser(s, uid, ClearFailures(s.users[uid]).(lastLoginAt := Some(s.now)))
  }

  lemma OpensShape(cfg: Config, s: State, r: Request)
    requires Opens(cfg, s, r)
    ensures FindByEmail(s.users, Text.Normalize(r.email)).Some?
    ensures var uid := LoginUser(s, r);
            && ActiveUser(s, uid)
            && DoLogin(cfg, s, r.email, r.password) == OpenSession(cfg, LoggedIn(s, uid), uid)
  {
  }

  /** What a refresh has checked when it rotates. */
  ghost predicate Redeemable(s: State, token: RefreshToken) {
    && VerifiesRefresh(s, token)
    && token.sessionId in s.store.rows && ActiveUser(s, token.userId)
    && var row := s.store.rows[token.sessionId];
       Unrevoked(row) && !Expired(row, s.now) && row.userId == token.userId && row.tokenVersion == token.tokenVersion
  }

  lemma RotatesShape(cfg: Config, s: State, r: Request)
    requires Rotates(cfg, s, r)
    ensures Redeemable(s, r.refreshToken)
    ensures DoRefresh(cfg, s, r.refreshToken) == Rotate(cfg, s, r.refreshToken.sessionId, r.refreshToken.userId)
  {
  }

  /** Every public request that neither opens nor rotates a session is quiet. */
  lemma PublicQuiet(cfg: Config, s: State, r: Request)
    requires !Guarded(r) && !Opens(cfg, s, r) && !Rotates(cfg, s, r)
    ensures Quiet(s, Serve(cfg, s, r).0)
  {
    hide DoLogin, DoRefresh, DoForgotPassword, DoResetPassword, DoVerifyEmail, DropDeadSessions, DropDeadTokens;
    match r
    case Login(email, password) => LoginQuiet(cfg, s, email, password);
    case Refresh(token) => RefreshQuiet(cfg, s, token);
    case ForgotPassword(email) => ForgotPasswordQuiet(cfg, s, email);
    case ResetPassword(raw, newPassword) => ResetPasswordQuiet(s, raw, newPassword);
    case VerifyEmail(raw) => VerifyEmailQuiet(s, raw);
    case CleanupSessions => CleanupQuiet(s);
    case CleanupTokens => CleanupQuiet(s);
    case Idle =>
  }

  lemma LoginQuiet(cfg: Config, s: State, email: string, password: string)
    requires !DoLogin(cfg, s, email, password).1.Issued?
    ensures Quiet(s, DoLogin(cfg, s, email, password).0)
  {
  }

  lemma RotateIssues(cfg: Config, s: State, sid: SessionId, uid: UserId)
    requires sid in s.store.rows && uid in s.users
    ensures Rotate(cfg, s, sid, uid).1.Issued?
  {
  }

  lemma RefreshQuiet(cfg: Config, s: State, token: RefreshToken)
    requires !DoRefresh(cfg, s, token).1.Issued?
    ensures Quiet(s, DoRefresh(cfg, s, token).0)
  {
    hide RevokeRows, Rotate, MintRefresh, MintAccess;
    if token.sessionId in s.store.rows && LiveUser(s, token.userId) {
      RotateIssues(cfg, s, token.sessionId, token.userId);
    }
    RevokeRowsQuiet(s.store.rows, token.userId, s.now, TokenReuse, None, Some(s.now));
  }

  lemma CleanupQuiet(s: State)
    ensures Quiet(s, DropDeadSessions(s))
    ensures Quiet(s, DropDeadTokens(s))
  {
  }

  lemma ForgotPasswordQuiet(cfg: Config, s: State, email: string)
    ensures Quiet(s, DoForgotPassword(cfg, s, email).0)
  {
  }

  lemma VerifyEmailQuiet(s: State, raw: nat)
    ensures Quiet(s, DoVerifyEmail(s, raw).0)
  {
  }

  // ------------------------------------------------------------------ one step

  /** What a step can be for the session store: a touch followed by something quiet, a session
   *  opened by a login, a session rotated by a refresh, or something quiet. */
  lemma StepShape(cfg: Config, s: State, e: Event)
    ensures var t, r, u := Tick(s, e.elapsed), e.request, Step(cfg, s, e).0;
            && (Touches(t, r) ==> Quiet(Touch(cfg, t, TokenOf(r).sessionId), u))
            && (Opens(cfg, t, r) ==>
                  && r.Login? && FindByEmail(t.users, Text.Normalize(r.email)).Some?
                  && ActiveUser(t, LoginUser(t, r))
                  && u == OpenSession(cfg, LoggedIn(t, LoginUser(t, r)), LoginUser(t, r)).0)
            && (Rotates(cfg, t, r) ==>
                  && r.Refresh? && Redeemable(t, r.refreshToken)
                  && u == Rotate(cfg, t, r.refreshToken.sessionId, r.refreshToken.userId).0)
            && (!Touches(t, r) && !Opens(cfg, t, r) && !Rotates(cfg, t, r) ==> Quiet(t, u))
  {
    hide DoLogin, DoRefresh, Handle, Touch, Admits, OpenSession, Rotate, LoggedIn, Text.Normalize;
    var t, r := Tick(s, e.elapsed), e.request;
    if Touches(t, r) {
      HandleQuiet(cfg, Touch(cfg, t, TokenOf(r).sessionId), r);
    } else if Opens(cfg, t, r) {
      OpensShape(cfg, t, r);
    } else if Rotates(cfg, t, r) {
      RotatesShape(cfg, t, r);
    } else if !Guarded(r) {
      PublicQuiet(cfg, t, r);
    }
  }

  // ------------------------------------------------------------------ evolution over runs

  ghost predicate RowEvolves(a: Session, b: Session) {
    && a.userId == b.userId
    && a.tokenVersion <= b.tokenVersion
    && (!Unrevoked(a) ==>
          && b.revokedAt == a.revokedAt && b.revokedReason == a.revokedReason
          && b.compromisedAt == a.compromisedAt && b.tokenVersion == a.tokenVersion)
  }

  /** Rows are added under fresh ids only, revoked rows keep their revocation columns, and signed
   *  tokens and touch keys are never taken back. */
  ghost predicate Evolves(s: State, t: State) {
    && s.now <= t.now && s.next <= t.next
    && s.store.refreshMinted <= t.store.refreshMinted
    && (forall sid | sid in t.store.rows && sid < s.next ::
          sid in s.store.rows && RowEvolves(s.store.rows[sid], t.store.rows[sid]))
    && (forall sid | sid in s.store.touched :: sid in t.store.touched && s.store.touched[sid] <= t.store.touched[sid])
  }

  lemma EvolvesTransitive(s: State, t: State, u: State)
    requires Evolves(s, t) && Evolves(t, u)
    ensures Evolves(s, u)
  {
  }

  lemma QuietEvolves(s: State, t: State)
    requires Quiet(s, t)
    ensures Evolves(s, t)
  {
  }

  lemma TouchEvolves(cfg: Config, s: State, sid: SessionId)
    ensures Evolves(s, Touch(cfg, s, sid))
  {
  }

  lemma StepEvolves(cfg: Config, s: State, e: Event)
    ensures Evolves(s, Step(cfg, s, e).0)
  {
    hide Step, Opens, Rotates, Admits, Touch, Quiet;
    var t, r, u := Tick(s, e.elapsed), e.request, Step(cfg, s, e).0;
    StepShape(cfg, s, e);
    assert Evolves(s, t);
    if Touches(t, r) {
      var v := Touch(cfg, t, TokenOf(r).sessionId);
      TouchEvolves(cfg, t, TokenOf(r).sessionId);
      QuietEvolves(v, u);
      EvolvesTransitive(s, t, v);
      EvolvesTransitive(s, v, u);
    } else if !Opens(cfg, t, r) && !Rotates(cfg, t, r) {
      QuietEvolves(t, u);
    }
  }

  lemma {:induction false} RunEvolves(cfg: Config, s: State, es: seq<Event>, i: nat, j: nat)
    requires i <= j <= |es|
    ensures Evolves(After(cfg, s, es[..i]), After(cfg, s, es[..j]))
    decreases j
  {
    hide Step, Evolves;
    if i < j {
      RunEvolves(cfg, s, es, i, j - 1);
      AfterSnoc(cfg, s, es, j - 1);
      StepEvolves(cfg, After(cfg, s, es[..j - 1]), es[j - 1]);
      EvolvesTransitive(After(cfg, s, es[..i]), After(cfg, s, es[..j - 1]), After(cfg, s, es[..j]));
    } else {
      EvolvesReflexive(After(cfg, s, es[..i]));
    }
  }

  lemma EvolvesReflexive(s: State)
    ensures Evolves(s, s)
  {
  }
}
