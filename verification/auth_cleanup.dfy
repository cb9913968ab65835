/** The hourly cleanup is unobservable: a simulation on live rows between a run with cleanup steps and
 *  the same run without them. */
module AuthCleanup {
  import opened Wrappers
  import opened AuthModel
  import opened AuthEvolution
  import opened AuthActionTokens

  type Rows = map<SessionId, Session>

  ghost predicate LiveAt(rows: Rows, sid: SessionId, now: Time) {
    sid in rows && Unrevoked(rows[sid]) && !Expired(rows[sid], now)
  }

  /** The tables agree on every row that is neither revoked nor expired. */
  ghost predicate SameLive(a: Rows, b: Rows, now: Time) {
    forall sid | LiveAt(a, sid, now) || LiveAt(b, sid, now) :: sid in a && sid in b && a[sid] == b[sid]
  }

  ghost predicate LiveTokenAt(rows: TokenTable, id: nat, now: Time) {
    id in rows && rows[id].consumedAt.None? && now < rows[id].expiresAt
  }

  ghost predicate SameLiveTokens(a: TokenTable, b: TokenTable, now: Time) {
    forall id | LiveTokenAt(a, id, now) || LiveTokenAt(b, id, now) :: id in a && id in b && a[id] == b[id]
  }

  ghost predicate SameRest(s: State, t: State) {
    && s.now == t.now && s.next == t.next && s.users == t.users && s.setter == t.setter
    && t.store == s.store.(rows := t.store.rows)
  }

  ghost predicate Alike(s: State, t: State) {
    && SameRest(s, t)
    && SameLive(s.store.rows, t.store.rows, s.now)
    && SameLiveTokens(s.actionTokens, t.actionTokens, s.now)
    && OneOutstanding(s.actionTokens, s.next) && OneOutstanding(t.actionTokens, t.next)
  }

  // ------------------------------------------------------------------ tables

  lemma TimePasses(a: Rows, b: Rows, p: TokenTable, q: TokenTable, now: Time, later: Time)
    requires SameLive(a, b, now) && SameLiveTokens(p, q, now) && now <= later
    ensures SameLive(a, b, later) && SameLiveTokens(p, q, later)
  {
  }

  lemma RevokeRowAlike(a: Rows, b: Rows, sid: SessionId, now: Time, reason: Reason)
    requires SameLive(a, b, now)
    ensures SameLive(RevokeRow(a, sid, now, reason), RevokeRow(b, sid, now, reason), now)
    ensures !LiveAt(a, sid, now) ==> SameLive(a, RevokeRow(b, sid, now, reason), now)
    ensures !LiveAt(b, sid, now) ==> SameLive(RevokeRow(a, sid, now, reason), b, now)
  {
  }

  lemma LiveAfterRevocation(a: Rows, uid: UserId, now: Time, reason: Reason, except: Option<SessionId>,
                            compromisedAt: Option<Time>, sid: SessionId)
    ensures var b := RevokeRows(a, uid, now, reason, except, compromisedAt);
            && (LiveAt(b, sid, now) <==> LiveAt(a, sid, now) && !(a[sid].userId == uid && except != Some(sid)))
            && (LiveAt(b, sid, now) ==> a[sid] == b[sid])
  {
  }

  lemma RevokeRowsAlike(a: Rows, b: Rows, uid: UserId, now: Time, reason: Reason, except: Option<SessionId>,
                        compromisedAt: Option<Time>)
    requires SameLive(a, b, now)
    ensures SameLive(RevokeRows(a, uid, now, reason, except, compromisedAt),
                     RevokeRows(b, uid, now, reason, except, compromisedAt), now)
  {
    hide RevokeRows;
    var a', b' := RevokeRows(a, uid, now, reason, except, compromisedAt), RevokeRows(b, uid, now, reason, except, compromisedAt);
    forall sid | LiveAt(a', sid, now) || LiveAt(b', sid, now)
      ensures sid in a' && sid in b' && a'[sid] == b'[sid]
    {
      LiveAfterRevocation(a, uid, now, reason, except, compromisedAt, sid);
      LiveAfterRevocation(b, uid, now, reason, except, compromisedAt, sid);
    }
  }

  lemma LiveAfterUserRevocation(a: Rows, uid: UserId, now: Time, reason: Reason, sid: SessionId)
    ensures var b := RevokeUserRows(a, uid, now, reason);
            && (LiveAt(b, sid, now) <==> LiveAt(a, sid, now) && a[sid].userId != uid)
            && (LiveAt(b, sid, now) ==> a[sid] == b[sid])
  {
  }

  lemma RevokeUserRowsAlike(a: Rows, b: Rows, uid: UserId, now: Time, reason: Reason)
    requires SameLive(a, b, now)
    ensures SameLive(RevokeUserRows(a, uid, now, reason), RevokeUserRows(b, uid, now, reason), now)
  {
    hide RevokeUserRows;
    var a', b' := RevokeUserRows(a, uid, now, reason), RevokeUserRows(b, uid, now, reason);
    forall sid | LiveAt(a', sid, now) || LiveAt(b', sid, now)
      ensures sid in a' && sid in b' && a'[sid] == b'[sid]
    {
      LiveAfterUserRevocation(a, uid, now, reason, sid);
      LiveAfterUserRevocation(b, uid, now, reason, sid);
    }
  }

  lemma RevokedByUpdateAlike(a: Rows, b: Rows, id: UserId, change: UserChange, now: Time)
    requires SameLive(a, b, now)
    ensures SameLive(RevokedByUpdate(a, id, change, now), RevokedByUpdate(b, id, change, now), now)
  {
    hide RevokeUserRows, SameLive;
    RevokeUserRowsAlike(a, b, id, now, UserDeactivated);
    RevokeUserRowsAlike(a, b, id, now, PasswordChangedByAdmin);
    RevokeUserRowsAlike(RevokeUserRows(a, id, now, UserDeactivated), RevokeUserRows(b, id, now, UserDeactivated),
                        id, now, PasswordChangedByAdmin);
  }

  lemma DropAlike(s: State, t: State)
    requires Alike(s, t)
    ensures Alike(DropDeadSessions(s), t) && Alike(s, DropDeadSessions(t))
    ensures Alike(DropDeadTokens(s), t) && Alike(s, DropDeadTokens(t))
  {
  }

  lemma CreateTokenAlike(cfg: Config, s: State, t: State, uid: UserId, email: string, purpose: Purpose)
    requires Alike(s, t)
    ensures Alike(CreateToken(cfg, s, uid, email, purpose), CreateToken(cfg, t, uid, email, purpose))
  {
    hide OneOutstanding, SameLive, ConsumeOutstanding;
    CreateAdvances(cfg, s, uid, email, purpose);
    CreateAdvances(cfg, t, uid, email, purpose);
    OutstandingAlike(s.actionTokens, t.actionTokens, uid, purpose, s.now);
  }

  lemma OutstandingAlike(a: TokenTable, b: TokenTable, uid: UserId, purpose: Purpose, now: Time)
    requires SameLiveTokens(a, b, now)
    ensures SameLiveTokens(ConsumeOutstanding(a, uid, purpose, now), ConsumeOutstanding(b, uid, purpose, now), now)
  {
    var a', b' := ConsumeOutstanding(a, uid, purpose, now), ConsumeOutstanding(b, uid, purpose, now);
    forall id | LiveTokenAt(a', id, now) || LiveTokenAt(b', id, now)
      ensures id in a' && id in b' && a'[id] == b'[id]
    {
      assert LiveTokenAt(a, id, now) || LiveTokenAt(b, id, now);
    }
  }

  /** Which row consumeToken accepts depends on live rows only. */
  lemma ConsumableAlike(s: State, t: State, raw: nat, purpose: Purpose)
    requires Alike(s, t)
    ensures ConsumableToken(s, raw, purpose) == ConsumableToken(t, raw, purpose)
    ensures var found := ConsumableToken(s, raw, purpose);
            found.Some? ==> LiveTokenAt(s.actionTokens, found.value, s.now) && s.actionTokens[found.value] == t.actionTokens[found.value]
  {
    ConsumableIsRow(s, raw, purpose);
    ConsumableIsRow(t, raw, purpose);
  }

  lemma ConsumableIsRow(s: State, raw: nat, purpose: Purpose)
    requires OneOutstanding(s.actionTokens, s.next)
    ensures ConsumableToken(s, raw, purpose) ==
              if LiveTokenAt(s.actionTokens, raw, s.now) && s.actionTokens[raw].purpose == purpose then Some(raw) else None
  {
    if Matching(s.actionTokens, raw, Sha256(raw), purpose) {
      assert FindActiveByHash(s.actionTokens, Sha256(raw), purpose).Some?;
    }
  }

  lemma ConsumeAlike(s: State, t: State, id: nat)
    requires Alike(s, t) && id in s.actionTokens && id in t.actionTokens
    ensures Alike(ConsumeRow(s, id), ConsumeRow(t, id))
  {
    hide SameLive;
    ConsumeAdvances(s, id);
    ConsumeAdvances(t, id);
  }

  lemma DropTokensAlike(s: State, t: State, uid: UserId)
    requires Alike(s, t)
    ensures Alike(DropTokensOf(s, uid), DropTokensOf(t, uid))
  {
    hide SameLive;
    DeleteAdvances(s, uid);
    DeleteAdvances(t, uid);
  }

  // ------------------------------------------------------------------ what is observed

  /** Accept or reject and the tokens issued; the error text is not observed, and neither is whether
   *  revoking one listed session found it. */
  function Seen(r: Request, outcome: Outcome): Outcome {
    if r.RevokeSession? && outcome != Failed(SessionNotActive) then Done
    else if outcome.Failed? then Failed(InvalidCredentials)
    else outcome
  }

  ghost predicate AlikeAfter(r: Request, a: (State, Outcome), b: (State, Outcome)) {
    Alike(a.0, b.0) && Seen(r, a.1) == Seen(r, b.1)
  }

  // ------------------------------------------------------------------ requests

  lemma LoginAlike(cfg: Config, s: State, t: State, r: Request)
    requires Alike(s, t) && r.Login?
    ensures AlikeAfter(r, DoLogin(cfg, s, r.email, r.password), DoLogin(cfg, t, r.email, r.password))
  {
    hide OneOutstanding, SameLive, SameLiveTokens, OpenSession, Text.Normalize;
    match FindByEmail(s.users, Text.Normalize(r.email))
    case None =>
    case Some(uid) =>
      OpenAlike(cfg, LoggedIn(s, uid), LoggedIn(t, uid), uid);
  }

  lemma OpenAlike(cfg: Config, s: State, t: State, uid: UserId)
    requires Alike(s, t) && uid in s.users
    ensures Alike(OpenSession(cfg, s, uid).0, OpenSession(cfg, t, uid).0)
    ensures OpenSession(cfg, s, uid).1 == OpenSession(cfg, t, uid).1
  {
    hide SameLiveTokens;
    LaterOneOutstanding(s.actionTokens, s.next);
    LaterOneOutstanding(t.actionTokens, t.next);
  }

  lemma RotateAlike(cfg: Config, s: State, t: State, sid: SessionId, uid: UserId)
    requires Alike(s, t) && uid in s.users && LiveAt(s.store.rows, sid, s.now)
    ensures Alike(Rotate(cfg, s, sid, uid).0, Rotate(cfg, t, sid, uid).0)
    ensures Rotate(cfg, s, sid, uid).1 == Rotate(cfg, t, sid, uid).1
  {
    hide SameLiveTokens;
    LaterOneOutstanding(s.actionTokens, s.next);
    LaterOneOutstanding(t.actionTokens, t.next);
  }

  lemma SessionAlike(s: State, t: State, sid: SessionId)
    requires Alike(s, t)
    ensures LiveAt(s.store.rows, sid, s.now) <==> LiveAt(t.store.rows, sid, s.now)
    ensures LiveAt(s.store.rows, sid, s.now) ==> s.store.rows[sid] == t.store.rows[sid]
  {
    hide OneOutstanding, SameLiveTokens;
  }

  lemma ReuseAlike(s: State, t: State, uid: UserId)
    requires Alike(s, t)
    ensures Alike(RevokeAllForUser(s, uid, TokenReuse, None, Some(s.now)), RevokeAllForUser(t, uid, TokenReuse, None, Some(s.now)))
  {
    hide OneOutstanding, SameLiveTokens, SameLive, RevokeRows;
    RevokeRowsAlike(s.store.rows, t.store.rows, uid, s.now, TokenReuse, None, Some(s.now));
  }

  lemma RefreshAlike(cfg: Config, s: State, t: State, r: Request)
    requires Alike(s, t) && r.Refresh?
    ensures AlikeAfter(r, DoRefresh(cfg, s, r.refreshToken), DoRefresh(cfg, t, r.refreshToken))
  {
    hide Alike, Rotate, RevokeAllForUser;
    var token := r.refreshToken;
    AlikeRest(s, t);
    SessionAlike(s, t, token.sessionId);
    ReuseAlike(s, t, token.userId);
    if LiveAt(s.store.rows, token.sessionId, s.now) && token.userId in s.users {
      RotateAlike(cfg, s, t, token.sessionId, token.userId);
    }
  }

  lemma TouchAlike(cfg: Config, s: State, t: State, sid: SessionId)
    requires Alike(s, t) && LiveAt(s.store.rows, sid, s.now)
    ensures Alike(Touch(cfg, s, sid), Touch(cfg, t, sid))
    ensures LiveAt(Touch(cfg, s, sid).store.rows, sid, s.now)
  {
    hide OneOutstanding, SameLiveTokens;
  }

  lemma AdmitsAlike(s: State, t: State, token: AccessToken)
    requires Alike(s, t)
    ensures Admits(s, token) <==> Admits(t, token)
  {
    hide OneOutstanding, SameLiveTokens;
    assert LiveAt(s.store.rows, token.sessionId, s.now) <==> LiveAt(t.store.rows, token.sessionId, t.now);
  }

  lemma ProfileAlike(cfg: Config, s: State, t: State, r: Request)
    requires Alike(s, t) && r.UpdateProfile?
    ensures AlikeAfter(r, DoUpdateProfile(cfg, s, r.token, r.change), DoUpdateProfile(cfg, t, r.token, r.change))
  {
    hide Alike, ProfilePassword, ProfileEmail;
    assert s.users == t.users && s.setter == t.setter by { AlikeRest(s, t); }
    if LiveUser(s, r.token.userId) {
      ProfilePasswordAlike(cfg, s, t, r.token, r.change);
      var (s1, user1) := ProfilePassword(cfg, s, r.token, r.change);
      var (t1, _) := ProfilePassword(cfg, t, r.token, r.change);
      if user1.Some? {
        ProfileEmailAlike(cfg, s1, t1, r.token.userId, user1.value, r.change.email);
        var (s2, user2) := ProfileEmail(cfg, s1, r.token.userId, user1.value, r.change.email);
        var (t2, _) := ProfileEmail(cfg, t1, r.token.userId, user1.value, r.change.email);
        if user2.Some? {
          var user3 := if r.change.avatar.AvatarKey? then user2.value.(avatarKey := r.change.avatar.key) else user2.value;
          SavedAlike(s2, t2, r.token.userId, user3);
        }
      }
    }
  }

  lemma AlikeRest(s: State, t: State)
    requires Alike(s, t)
    ensures SameRest(s, t)
  {
  }

  lemma SavedAlike(s: State, t: State, uid: UserId, user: User)
    requires Alike(s, t)
    ensures Alike(SaveUser(s, uid, user), SaveUser(t, uid, user))
    ensures forall setter :: Alike(SaveUser(s, uid, user).(setter := setter), SaveUser(t, uid, user).(setter := setter))
    ensures s.setter == t.setter
  {
    hide OneOutstanding, SameLiveTokens, SameLive;
  }

  lemma NextAlike(s: State, t: State)
    requires Alike(s, t)
    ensures Alike(s.(next := s.next + 1), t.(next := t.next + 1))
  {
    hide SameLiveTokens, SameLive;
    LaterOneOutstanding(s.actionTokens, s.next);
    LaterOneOutstanding(t.actionTokens, t.next);
  }

  lemma RowsAlike(s: State, t: State, a: Rows, b: Rows)
    requires Alike(s, t) && SameLive(a, b, s.now)
    ensures Alike(WithRows(s, a), WithRows(t, b))
  {
    hide OneOutstanding, SameLiveTokens, SameLive;
  }

  lemma ProfilePasswordAlike(cfg: Config, s: State, t: State, token: AccessToken, change: ProfileChange)
    requires Alike(s, t) && token.userId in s.users
    ensures var (s1, a), (t1, b) := ProfilePassword(cfg, s, token, change), ProfilePassword(cfg, t, token, change);
            Alike(s1, t1) && a == b
  {
    hide OneOutstanding, SameLiveTokens, SameLive, RevokeRows;
    var uid := token.userId;
    RevokeRowsAlike(s.store.rows, t.store.rows, uid, s.now, PasswordChanged, Some(token.sessionId), None);
    var a, b := RevokeAllForUser(s, uid, PasswordChanged, Some(token.sessionId), None), RevokeAllForUser(t, uid, PasswordChanged, Some(token.sessionId), None);
    RowsAlike(s, t, a.store.rows, b.store.rows);
    NextAlike(a, b);
  }

  lemma ProfileEmailAlike(cfg: Config, s: State, t: State, uid: UserId, user: User, email: Option<string>)
    requires Alike(s, t)
    ensures var (s2, a), (t2, b) := ProfileEmail(cfg, s, uid, user, email), ProfileEmail(cfg, t, uid, user, email);
            Alike(s2, t2) && a == b
  {
    hide OneOutstanding, SameLiveTokens, SameLive, CreateToken, Text.Lower;
    if Truthy(email) {
      CreateTokenAlike(cfg, s, t, uid, Text.Lower(email.value), EmailVerification);
    }
  }

  lemma UpdateUserAlike(s: State, t: State, r: Request)
    requires Alike(s, t) && r.UpdateUser?
    ensures AlikeAfter(r, DoUpdateUser(s, r.id, r.userChange), DoUpdateUser(t, r.id, r.userChange))
  {
    hide Alike, SameLive, RevokedByUpdate, EditedUser, Renames, DropTokensOf, Text.Normalize;
    var id, change := r.id, r.userChange;
    AlikeRest(s, t);
    if LiveUser(s, id) {
      var edited := EditedUser(s.users[id], change, s.now, s.next);
      DropTokensAlike(s, t, id);
      DropFrame(s, id);
      DropFrame(t, id);
      var s1 := if Renames(s.users[id], change) then DropTokensOf(s, id) else s;
      var t1 := if Renames(s.users[id], change) then DropTokensOf(t, id) else t;
      var a, b := RevokedByUpdate(s.store.rows, id, change, s.now), RevokedByUpdate(t.store.rows, id, change, t.now);
      assert SameLive(a, b, s.now) by {
        AlikeLive(s, t);
        RevokedByUpdateAlike(s.store.rows, t.store.rows, id, change, s.now);
      }
      RowsAlike(s1, t1, a, b);
      NextAlike(WithRows(s1, a), WithRows(t1, b));
      SavedAlike(WithRows(s1, a).(next := s.next + 1), WithRows(t1, b).(next := t.next + 1), id, edited);
    }
  }

  lemma AlikeLive(s: State, t: State)
    requires Alike(s, t)
    ensures SameLive(s.store.rows, t.store.rows, s.now)
  {
  }

  lemma RemoveUserAlike(s: State, t: State, r: Request)
    requires Alike(s, t) && r.RemoveUser?
    ensures AlikeAfter(r, DoRemoveUser(s, r.token, r.id), DoRemoveUser(t, r.token, r.id))
  {
    hide OneOutstanding, SameLiveTokens, SameLive, RevokeUserRows;
    RevokeUserRowsAlike(s.store.rows, t.store.rows, r.id, s.now, UserDeleted);
  }

  lemma CreateUserAlike(s: State, t: State, r: Request)
    requires Alike(s, t) && r.CreateUser?
    ensures AlikeAfter(r, DoCreateUser(s, r.newUser), DoCreateUser(t, r.newUser))
  {
    hide OneOutstanding, SameLiveTokens, SameLive, Text.Normalize;
    NextAlike(s, t);
  }

  lemma ResendAlike(cfg: Config, s: State, t: State, uid: UserId)
    requires Alike(s, t)
    ensures var a, b := DoResendVerification(cfg, s, uid), DoResendVerification(cfg, t, uid);
            Alike(a.0, b.0) && a.1 == b.1
  {
    hide Alike, CreateToken;
    AlikeRest(s, t);
    if LiveUser(s, uid) {
      var email := s.users[uid].email;
      CreateTokenAlike(cfg, s, t, uid, email, EmailVerification);
      SavedAlike(CreateToken(cfg, s, uid, email, EmailVerification), CreateToken(cfg, t, uid, email, EmailVerification),
                 uid, s.users[uid].(verificationEmailSentAt := Some(s.now)));
    }
  }

  lemma ResetAlike(s: State, t: State, r: Request)
    requires Alike(s, t) && r.ResetPassword?
    ensures AlikeAfter(r, DoResetPassword(s, r.raw, r.newPassword), DoResetPassword(t, r.raw, r.newPassword))
  {
    hide OneOutstanding, SameLiveTokens, SameLive, RevokeRows;
    ConsumableAlike(s, t, r.raw, PasswordReset);
    match ConsumableToken(s, r.raw, PasswordReset)
    case None =>
    case Some(id) =>
      ConsumeAlike(s, t, id);
      var uid := s.actionTokens[id].userId;
      NextAlike(ConsumeRow(s, id), ConsumeRow(t, id));
      RevokeRowsAlike(s.store.rows, t.store.rows, uid, s.now, LogoutAll, None, None);
  }

  lemma VerifyAlike(s: State, t: State, r: Request)
    requires Alike(s, t) && r.VerifyEmail?
    ensures AlikeAfter(r, DoVerifyEmail(s, r.raw), DoVerifyEmail(t, r.raw))
  {
    hide OneOutstanding, SameLiveTokens, SameLive;
    ConsumableAlike(s, t, r.raw, EmailVerification);
    match ConsumableToken(s, r.raw, EmailVerification)
    case None =>
    case Some(id) => ConsumeAlike(s, t, id);
  }

  lemma ForgotAlike(cfg: Config, s: State, t: State, r: Request)
    requires Alike(s, t) && r.ForgotPassword?
    ensures AlikeAfter(r, DoForgotPassword(cfg, s, r.email), DoForgotPassword(cfg, t, r.email))
  {
    hide Alike, CreateToken, Text.Normalize;
    AlikeRest(s, t);
    match FindByEmail(s.users, Text.Normalize(r.email))
    case None =>
    case Some(uid) => CreateTokenAlike(cfg, s, t, uid, s.users[uid].email, PasswordReset);
  }

  lemma RevokeSessionAlike(cfg: Config, s: State, t: State, r: Request)
    requires Alike(s, t) && r.RevokeSession?
    ensures AlikeAfter(r, Handle(cfg, s, r), Handle(cfg, t, r))
  {
    hide OneOutstanding, SameLiveTokens, RevokeRow, SameLive;
    RevokeRowAlike(s.store.rows, t.store.rows, r.sessionId, s.now, ManualRevoke);
    RevocableAlike(s.store.rows, t.store.rows, r.sessionId, s.now);
  }

  lemma RevocableAlike(a: Rows, b: Rows, sid: SessionId, now: Time)
    requires SameLive(a, b, now)
    ensures LiveAt(a, sid, now) <==> LiveAt(b, sid, now)
    ensures LiveAt(a, sid, now) ==> a[sid] == b[sid]
  {
  }

  lemma HandleAlike(cfg: Config, s: State, t: State, r: Request)
    requires Guarded(r) && Alike(s, t)
    ensures AlikeAfter(r, Handle(cfg, s, r), Handle(cfg, t, r))
  {
    hide Alike, RevokeRow, RevokeRows, DoResendVerification, DoUpdateProfile, DoCreateUser, DoUpdateUser, DoRemoveUser;
    match r
    case Authorize(_) =>
    case Logout(token) => LogoutAlike(s, t, token);
    case LogoutAllSessions(token) => LogoutAlike(s, t, token);
    case RevokeSession(_, _) => RevokeSessionAlike(cfg, s, t, r);
    case ResendVerification(token) => ResendAlike(cfg, s, t, token.userId);
    case UpdateProfile(_, _) => ProfileAlike(cfg, s, t, r);
    case CreateUser(_, _) => CreateUserAlike(s, t, r);
    case UpdateUser(_, _, _) => UpdateUserAlike(s, t, r);
    case RemoveUser(_, _) => RemoveUserAlike(s, t, r);
  }

  lemma LogoutAlike(s: State, t: State, token: AccessToken)
    requires Alike(s, t)
    ensures Alike(RevokeOne(s, token.sessionId, LogoutCurrent), RevokeOne(t, token.sessionId, LogoutCurrent))
    ensures Alike(RevokeAllForUser(s, token.userId, LogoutAll, None, None), RevokeAllForUser(t, token.userId, LogoutAll, None, None))
  {
    hide OneOutstanding, SameLiveTokens, SameLive, RevokeRow, RevokeRows;
    RevokeRowAlike(s.store.rows, t.store.rows, token.sessionId, s.now, LogoutCurrent);
    RevokeRowsAlike(s.store.rows, t.store.rows, token.userId, s.now, LogoutAll, None, None);
  }

  predicate IsCleanup(r: Request) { r.CleanupSessions? || r.CleanupTokens? || r.Idle? }

  /** Equal requests, or each a cleanup or nothing at all. */
  lemma ServeAlike(cfg: Config, s: State, t: State, r: Request, r': Request)
    requires Alike(s, t) && (r == r' || (IsCleanup(r) && IsCleanup(r')))
    ensures AlikeAfter(r, Serve(cfg, s, r), Serve(cfg, t, r'))
  {
    hide Alike, Handle, Touch, Admits, DoLogin, DoRefresh, DoForgotPassword, DoResetPassword, DoVerifyEmail,
      DropDeadSessions, DropDeadTokens;
    if Guarded(r) {
      AdmitsAlike(s, t, TokenOf(r));
      if Admits(s, TokenOf(r)) {
        AdmittedIsLive(s, TokenOf(r));
        TouchAlike(cfg, s, t, TokenOf(r).sessionId);
        HandleAlike(cfg, Touch(cfg, s, TokenOf(r).sessionId), Touch(cfg, t, TokenOf(r).sessionId), r);
      }
    } else if IsCleanup(r) {
      CleanupsAlike(s, t);
    } else {
      match r
      case Login(_, _) => LoginAlike(cfg, s, t, r);
      case Refresh(_) => RefreshAlike(cfg, s, t, r);
      case ForgotPassword(_) => ForgotAlike(cfg, s, t, r);
      case ResetPassword(_, _) => ResetAlike(s, t, r);
      case VerifyEmail(_) => VerifyAlike(s, t, r);
    }
  }

  lemma AdmittedIsLive(s: State, token: AccessToken)
    requires Admits(s, token)
    ensures LiveAt(s.store.rows, token.sessionId, s.now)
  {
  }

  lemma CleanupsAlike(s: State, t: State)
    requires Alike(s, t)
    ensures forall s', t' | s' in {s, DropDeadSessions(s), DropDeadTokens(s)} && t' in {t, DropDeadSessions(t), DropDeadTokens(t)} :: Alike(s', t')
  {
    hide Alike, DropDeadSessions, DropDeadTokens;
    DropAlike(s, t);
    DropAlike(DropDeadSessions(s), t);
    DropAlike(DropDeadTokens(s), t);
  }

  // ------------------------------------------------------------------ runs

  /** The same timing and the same requests, except that where one run cleans up the other may clean
   *  up differently or not at all. */
  ghost predicate SameButCleanup(es: seq<Event>, fs: seq<Event>) {
    && |es| == |fs|
    && forall k | 0 <= k < |es| ::
         es[k].elapsed == fs[k].elapsed
         && (es[k].request == fs[k].request || (IsCleanup(es[k].request) && IsCleanup(fs[k].request)))
  }

  lemma StepAlike(cfg: Config, s: State, t: State, e: Event, f: Event)
    requires Alike(s, t) && e.elapsed == f.elapsed
    requires e.request == f.request || (IsCleanup(e.request) && IsCleanup(f.request))
    ensures AlikeAfter(e.request, Step(cfg, s, e), Step(cfg, t, f))
  {
    hide Serve, OneOutstanding;
    TimePasses(s.store.rows, t.store.rows, s.actionTokens, t.actionTokens, s.now, s.now + e.elapsed);
    ServeAlike(cfg, Tick(s, e.elapsed), Tick(t, e.elapsed), e.request, f.request);
  }

  lemma {:induction false} RunAlike(cfg: Config, s: State, es: seq<Event>, fs: seq<Event>)
    requires Initial(s) && SameButCleanup(es, fs)
    ensures Alike(After(cfg, s, es), After(cfg, s, fs))
  {
    hide Step;
    if es != [] {
      hide Alike;
      var n := |es| - 1;
      RunAlike(cfg, s, es[..n], fs[..n]);
      StepAlike(cfg, After(cfg, s, es[..n]), After(cfg, s, fs[..n]), es[n], fs[n]);
    }
  }

  /** Cleanup is unobservable: whatever cleanup steps a run contains, every request is accepted or
   *  rejected, and issued the same tokens, exactly as in the run without them. */
  lemma CleanupUnobservable(cfg: Config, run: Run, other: Run, k: nat)
    requires IsRun(cfg, run) && IsRun(cfg, other) && run.states[0] == other.states[0]
    requires SameButCleanup(run.events, other.events) && k < |run.events|
    ensures Seen(run.events[k].request, run.outcomes[k]) == Seen(run.events[k].request, other.outcomes[k])
  {
    hide Step, Alike, Initial;
    RunState(cfg, run, k);
    RunState(cfg, other, k);
    RunStep(cfg, run, k);
    RunStep(cfg, other, k);
    RunAlike(cfg, run.states[0], run.events[..k], other.events[..k]);
    StepAlike(cfg, run.states[k], other.states[k], run.events[k], other.events[k]);
  }
}
