/** Who may own an unrevoked session, and which password it answers to.  authorizeRequestUser never
 *  looks at the user row; these are the facts about the other operations that make that safe. */
module AuthOwners {
  import opened Wrappers
  import opened AuthModel
  import opened AuthEvolution

  /** compromisedAt is set exactly when the reason is token reuse, and then to the moment of revocation. */
  ghost predicate RevocationShape(row: Session) {
    && (row.revokedReason.Some? <==> row.revokedAt.Some?)
    && row.compromisedAt == (if row.revokedReason == Some(TokenReuse) then row.revokedAt else None)
  }

  ghost predicate ShapedRows(rows: map<SessionId, Session>) {
    forall sid | sid in rows :: RevocationShape(rows[sid])
  }

  /** The session was opened with its owner's present password digest, or is the session whose own
   *  profile change stored that digest. */
  ghost predicate PresentCredential(s: State, sid: SessionId, uid: UserId)
    requires uid in s.users
  {
    || (sid in s.store.openedWith && s.store.openedWith[sid] == s.users[uid].passwordHash)
    || (uid in s.setter && s.setter[uid] == sid)
  }

  ghost predicate Entitled(s: State, sid: SessionId)
    requires sid in s.store.rows
  {
    var uid := s.store.rows[sid].userId;
    Unrevoked(s.store.rows[sid]) ==> ActiveUser(s, uid) && PresentCredential(s, sid, uid)
  }

  ghost predicate Sound(s: State) {
    && ShapedRows(s.store.rows)
    && (forall id | id in s.users :: id < s.next)
    && (forall sid | sid in s.store.rows :: sid < s.next && s.store.rows[sid].userId in s.users && Entitled(s, sid))
  }

  // ------------------------------------------------------------------ revocations

  ghost predicate NoneOpen(rows: map<SessionId, Session>, uid: UserId) {
    forall sid | sid in rows && rows[sid].userId == uid :: !Unrevoked(rows[sid])
  }

  /** Only the given session of the user may still be open. */
  ghost predicate OnlyOpen(rows: map<SessionId, Session>, uid: UserId, sid: SessionId) {
    forall id | id in rows && rows[id].userId == uid && Unrevoked(rows[id]) :: id == sid
  }

  lemma RevokedRowShape(row: Session, now: Time, reason: Reason, compromisedAt: Option<Time>)
    ensures RevocationShape(Revoked(row, now, reason).(compromisedAt := compromisedAt))
       <==> compromisedAt == (if reason == TokenReuse then Some(now) else None)
  {
  }

  /** After revokeAllForUser nothing of the user's is open but the excepted session, and every row is
   *  well-formed exactly when the compromise time given is the present for token reuse and none
   *  otherwise, or no row was there to revoke. */
  lemma RevokedRowsClosed(rows: map<SessionId, Session>, uid: UserId, now: Time, reason: Reason,
                          except: Option<SessionId>, compromisedAt: Option<Time>)
    requires ShapedRows(rows)
    ensures var rows' := RevokeRows(rows, uid, now, reason, except, compromisedAt);
            && (except.None? ==> NoneOpen(rows', uid))
            && (except.Some? ==> OnlyOpen(rows', uid, except.value))
            && (ShapedRows(rows') <==>
                  || compromisedAt == (if reason == TokenReuse then Some(now) else None)
                  || forall sid | sid in rows && rows[sid].userId == uid && Unrevoked(rows[sid]) :: except == Some(sid))
  {
    var rows' := RevokeRows(rows, uid, now, reason, except, compromisedAt);
    hide RevocationShape;
    forall sid | sid in rows
      ensures RevocationShape(rows'[sid]) <==>
        || compromisedAt == (if reason == TokenReuse then Some(now) else None)
        || !(rows[sid].userId == uid && Unrevoked(rows[sid]) && except != Some(sid))
    {
      RevokedRowShape(rows[sid], now, reason, compromisedAt);
    }
  }

  /** Revoking keeps the state sound, whatever is revoked. */
  lemma QuietRowsSound(s: State, rows: map<SessionId, Session>)
    requires Sound(s) && RowsQuiet(s.store.rows, rows) && ShapedRows(rows)
    ensures Sound(WithRows(s, rows))
  {
  }

  lemma FreshNumberSound(s: State, next: nat)
    requires Sound(s) && s.next <= next
    ensures Sound(s.(next := next))
  {
  }

  lemma TokensSound(s: State, actionTokens: map<nat, ActionToken>)
    requires Sound(s)
    ensures Sound(s.(actionTokens := actionTokens))
  {
  }

  ghost predicate SameStanding(a: User, b: User) {
    a.passwordHash == b.passwordHash && a.isActive == b.isActive && a.deletedAt == b.deletedAt
  }

  lemma SaveUserSound(s: State, id: UserId, user: User)
    requires Sound(s) && id in s.users && SameStanding(s.users[id], user)
    ensures Sound(SaveUser(s, id, user))
  {
  }

  /** A user without open sessions may be saved in any shape. */
  lemma SaveClosedUserSound(s: State, id: UserId, user: User, setter: map<UserId, SessionId>)
    requires Sound(s) && id < s.next && NoneOpen(s.store.rows, id)
    requires forall uid | uid != id && uid in s.setter :: uid in setter && setter[uid] == s.setter[uid]
    ensures Sound(SaveUser(s, id, user).(setter := setter))
  {
  }

  // ------------------------------------------------------------------ requests

  lemma OpenSound(cfg: Config, s: State, uid: UserId)
    requires Sound(s) && ActiveUser(s, uid)
    ensures Sound(OpenSession(cfg, s, uid).0)
  {
  }

  lemma RotateSound(cfg: Config, s: State, token: RefreshToken)
    requires Sound(s) && Redeemable(s, token)
    ensures Sound(Rotate(cfg, s, token.sessionId, token.userId).0)
  {
  }

  lemma TouchSound(cfg: Config, s: State, sid: SessionId)
    requires Sound(s)
    ensures Sound(Touch(cfg, s, sid))
  {
  }

  lemma LoginSound(cfg: Config, s: State, email: string, password: string)
    requires Sound(s)
    ensures Sound(DoLogin(cfg, s, email, password).0)
  {
    hide Sound, OpenSession, Text.Normalize;
    match FindByEmail(s.users, Text.Normalize(email))
    case None =>
    case Some(uid) =>
      var saved := LoggedIn(s, uid);
      SaveUserSound(s, uid, FailedLogin(cfg, s, uid).users[uid]);
      SaveUserSound(s, uid, saved.users[uid]);
      if s.users[uid].isActive {
        OpenSound(cfg, saved, uid);
      }
  }

  lemma RefreshSound(cfg: Config, s: State, token: RefreshToken)
    requires Sound(s)
    ensures Sound(DoRefresh(cfg, s, token).0)
  {
    hide Rotate, RevokeRows;
    RevokeRowsQuiet(s.store.rows, token.userId, s.now, TokenReuse, None, Some(s.now));
    RevokedRowsClosed(s.store.rows, token.userId, s.now, TokenReuse, None, Some(s.now));
    QuietRowsSound(s, RevokeRows(s.store.rows, token.userId, s.now, TokenReuse, None, Some(s.now)));
    if Redeemable(s, token) {
      RotateSound(cfg, s, token);
    }
  }

  /** Tokens and fresh numbers are all that forgot, resend and a consumed verification change. */
  lemma ForgotPasswordSound(cfg: Config, s: State, email: string)
    requires Sound(s)
    ensures Sound(DoForgotPassword(cfg, s, email).0)
  {
    hide Text.Normalize;
  }

  lemma VerifyEmailSound(s: State, raw: nat)
    requires Sound(s)
    ensures Sound(DoVerifyEmail(s, raw).0)
  {
    hide Sound;
    match ConsumableToken(s, raw, EmailVerification)
    case None =>
    case Some(id) =>
      var s1 := ConsumeRow(s, id);
      TokensSound(s, s1.actionTokens);
      var uid := s.actionTokens[id].userId;
      if LiveUser(s1, uid) {
        SaveUserSound(s1, uid, s1.users[uid].(emailVerifiedAt := Some(s.now)));
      }
  }

  lemma ResendSound(cfg: Config, s: State, uid: UserId)
    requires Sound(s)
    ensures Sound(DoResendVerification(cfg, s, uid).0)
  {
    hide Sound;
    if LiveUser(s, uid) {
      var s1 := CreateToken(cfg, s, uid, s.users[uid].email, EmailVerification);
      FreshNumberSound(s, s.next + 1);
      TokensSound(s.(next := s.next + 1), s1.actionTokens);
      SaveUserSound(s1, uid, s.users[uid].(verificationEmailSentAt := Some(s.now)));
    }
  }

  lemma ResetPasswordSound(s: State, raw: nat, newPassword: string)
    requires Sound(s)
    ensures Sound(DoResetPassword(s, raw, newPassword).0)
  {
    hide Sound, RevokeRows;
    match ConsumableToken(s, raw, PasswordReset)
    case None =>
    case Some(id) =>
      var uid := s.actionTokens[id].userId;
      var s1 := ConsumeRow(s, id).(next := s.next + 1);
      TokensSound(s, s1.actionTokens);
      FreshNumberSound(s.(actionTokens := s1.actionTokens), s.next + 1);
      if LiveUser(s, uid) {
        var rows := RevokeRows(s.store.rows, uid, s.now, LogoutAll, None, None);
        SoundRowsShaped(s);
        RevokeRowsQuiet(s.store.rows, uid, s.now, LogoutAll, None, None);
        RevokedRowsClosed(s.store.rows, uid, s.now, LogoutAll, None, None);
        QuietRowsSound(s1, rows);
        SoundUsersBelow(s);
        var user := ClearFailures(s.users[uid]).(passwordHash := Some(Digest(Password(newPassword), s.next)),
                                                 passwordChangedAt := Some(s.now));
        SaveClosedUserSound(WithRows(s1, rows), uid, user, s.setter - {uid});
      }
  }

  lemma UpdateProfileSound(cfg: Config, s: State, token: AccessToken, change: ProfileChange)
    requires Sound(s)
    ensures Sound(DoUpdateProfile(cfg, s, token, change).0)
  {
    hide Sound, ProfilePassword, ProfileEmail;
    var uid := token.userId;
    if LiveUser(s, uid) {
      ProfilePasswordSound(cfg, s, token, change);
      var (s1, user1) := ProfilePassword(cfg, s, token, change);
      if user1.Some? {
        ProfileEmailSound(cfg, s1, uid, user1.value, change.email);
        var (s2, user2) := ProfileEmail(cfg, s1, uid, user1.value, change.email);
        if user2.Some? {
          var user3 := if change.avatar.AvatarKey? then user2.value.(avatarKey := change.avatar.key) else user2.value;
          SaveProfileSound(s2, uid, user3, token.sessionId, ChangesPassword(change));
        }
      }
    }
  }

  lemma ProfilePasswordSound(cfg: Config, s: State, token: AccessToken, change: ProfileChange)
    requires Sound(s) && LiveUser(s, token.userId)
    ensures var (s1, user1) := ProfilePassword(cfg, s, token, change);
            && Sound(s1) && s1.users == s.users && s1.setter == s.setter
            && (user1.Some? ==>
                  && user1.value.isActive == s.users[token.userId].isActive
                  && user1.value.deletedAt == s.users[token.userId].deletedAt
                  && (ChangesPassword(change) ==> OnlyOpen(s1.store.rows, token.userId, token.sessionId))
                  && (!ChangesPassword(change) ==> user1.value == s.users[token.userId]))
  {
    hide Sound, RevokeRows;
    var rows := RevokeRows(s.store.rows, token.userId, s.now, PasswordChanged, Some(token.sessionId), None);
    RevokeRowsQuiet(s.store.rows, token.userId, s.now, PasswordChanged, Some(token.sessionId), None);
    SoundRowsShaped(s);
    RevokedRowsClosed(s.store.rows, token.userId, s.now, PasswordChanged, Some(token.sessionId), None);
    QuietRowsSound(s, rows);
    FreshNumberSound(WithRows(s, rows), s.next + 1);
  }

  lemma ProfileEmailSound(cfg: Config, s: State, uid: UserId, user: User, email: Option<string>)
    requires Sound(s)
    ensures var (s2, user2) := ProfileEmail(cfg, s, uid, user, email);
            && Sound(s2) && s2.users == s.users && s2.setter == s.setter && s2.store == s.store
            && (user2.Some? ==> SameStanding(user, user2.value))
  {
    hide Sound, Text.Lower;
    if Truthy(email) {
      var s1 := CreateToken(cfg, s, uid, Text.Lower(email.value), EmailVerification);
      FreshNumberSound(s, s.next + 1);
      TokensSound(s.(next := s.next + 1), s1.actionTokens);
    }
  }

  lemma SaveProfileSound(s: State, uid: UserId, user: User, sid: SessionId, changed: bool)
    requires Sound(s) && uid in s.users
    requires user.isActive == s.users[uid].isActive && user.deletedAt == s.users[uid].deletedAt
    requires if changed then OnlyOpen(s.store.rows, uid, sid) else user.passwordHash == s.users[uid].passwordHash
    ensures var s3 := SaveUser(s, uid, user);
            Sound(if changed then s3.(setter := s3.setter[uid := sid]) else s3)
  {
  }

  lemma CreateUserSound(s: State, newUser: NewUser)
    requires Sound(s)
    ensures Sound(DoCreateUser(s, newUser).0)
  {
    hide Text.Normalize;
  }

  lemma UpdateUserSound(s: State, id: UserId, change: UserChange)
    requires Sound(s)
    ensures Sound(DoUpdateUser(s, id, change).0)
  {
    hide Sound, RevokedByUpdate, EditedUser, Renames;
    if LiveUser(s, id) {
      var rows := RevokedByUpdate(s.store.rows, id, change, s.now);
      RevokedByUpdateQuiet(s.store.rows, id, change, s.now);
      SoundRowsShaped(s);
      RevokedByUpdateShaped(s.store.rows, id, change, s.now);
      QuietRowsSound(s, rows);
      var s1 := WithRows(s, rows);
      FreshNumberSound(s1, s.next + 1);
      var s2 := s1.(next := s.next + 1);
      TokensSound(s2, DropTokensOf(s, id).actionTokens);
      SaveEditedSound(s2, s.users[id], id, change, s.now, s.next);
      SaveEditedSound(s2.(actionTokens := DropTokensOf(s, id).actionTokens), s.users[id], id, change, s.now, s.next);
    }
  }

  lemma RevokedByUpdateShaped(rows: map<SessionId, Session>, id: UserId, change: UserChange, now: Time)
    requires ShapedRows(rows)
    ensures var rows' := RevokedByUpdate(rows, id, change, now);
            && ShapedRows(rows')
            && (change.password.Some? || change.isActive == Some(false) ==> NoneOpen(rows', id))
  {
    hide RevokeUserRows;
    RevokedUserClosed(rows, id, now, UserDeactivated);
    RevokedUserClosed(rows, id, now, PasswordChangedByAdmin);
    RevokedUserClosed(RevokeUserRows(rows, id, now, UserDeactivated), id, now, PasswordChangedByAdmin);
  }

  lemma RevokedUserClosed(rows: map<SessionId, Session>, id: UserId, now: Time, reason: Reason)
    requires ShapedRows(rows) && reason != TokenReuse
    ensures NoneOpen(RevokeUserRows(rows, id, now, reason), id)
    ensures ShapedRows(RevokeUserRows(rows, id, now, reason))
  {
  }

  /** Reactivating a user opens nothing: an inactive user has no open session to begin with. */
  lemma SaveEditedSound(s: State, user: User, id: UserId, change: UserChange, now: Time, salt: nat)
    requires Sound(s) && id in s.users && s.users[id] == user && user.deletedAt.None?
    requires change.password.Some? || change.isActive == Some(false) ==> NoneOpen(s.store.rows, id)
    ensures var s3 := SaveUser(s, id, EditedUser(user, change, now, salt));
            Sound(if change.password.Some? then s3.(setter := s3.setter - {id}) else s3)
  {
    hide Renames, Text.Normalize;
    var edited := EditedUser(user, change, now, salt);
    if NoneOpen(s.store.rows, id) {
      SaveClosedUserSound(s, id, edited, s.setter);
      SaveClosedUserSound(s, id, edited, s.setter - {id});
    } else {
      assert user.isActive;
      SaveUserSound(s, id, edited);
    }
  }

  lemma RemoveUserSound(s: State, token: AccessToken, id: UserId)
    requires Sound(s)
    ensures Sound(DoRemoveUser(s, token, id).0)
  {
    hide Sound, RevokeUserRows;
    RevokeUserRowsQuiet(s.store.rows, id, s.now, UserDeleted);
    if LiveUser(s, id) {
      SoundRowsShaped(s);
      RevokedUserClosed(s.store.rows, id, s.now, UserDeleted);
      var rows := RevokeUserRows(s.store.rows, id, s.now, UserDeleted);
      QuietRowsSound(s, rows);
      SoundUsersBelow(s);
      SaveClosedUserSound(WithRows(s, rows), id, s.users[id].(isActive := false, deletedAt := Some(s.now)), s.setter);
    }
  }

  lemma SoundRowsShaped(s: State)
    requires Sound(s)
    ensures ShapedRows(s.store.rows)
  {
  }

  lemma SoundUsersBelow(s: State)
    requires Sound(s)
    ensures forall id | id in s.users :: id < s.next
  {
  }

  // ------------------------------------------------------------------ steps and runs

  lemma HandleSound(cfg: Config, s: State, r: Request)
    requires Guarded(r) && Sound(s)
    ensures Sound(Handle(cfg, s, r).0)
  {
    hide Sound, RevokeRow, RevokeRows, DoResendVerification, DoUpdateProfile, DoCreateUser, DoUpdateUser, DoRemoveUser;
    SoundRowsShaped(s);
    match r
    case Authorize(_) =>
    case Logout(token) => RevokeOneSound(s, token.sessionId, LogoutCurrent);
    case LogoutAllSessions(token) =>
      RevokeRowsQuiet(s.store.rows, token.userId, s.now, LogoutAll, None, None);
      RevokedRowsClosed(s.store.rows, token.userId, s.now, LogoutAll, None, None);
      QuietRowsSound(s, RevokeRows(s.store.rows, token.userId, s.now, LogoutAll, None, None));
    case RevokeSession(token, sid) => RevokeOneSound(s, sid, ManualRevoke);
    case ResendVerification(token) => ResendSound(cfg, s, token.userId);
    case UpdateProfile(token, change) => UpdateProfileSound(cfg, s, token, change);
    case CreateUser(token, newUser) => CreateUserSound(s, newUser);
    case UpdateUser(token, id, change) => UpdateUserSound(s, id, change);
    case RemoveUser(token, id) => RemoveUserSound(s, token, id);
  }

  lemma RevokeOneSound(s: State, sid: SessionId, reason: Reason)
    requires Sound(s) && reason != TokenReuse
    ensures Sound(RevokeOne(s, sid, reason))
  {
    RevokeRowQuiet(s.store.rows, sid, s.now, reason);
    QuietRowsSound(s, RevokeRow(s.store.rows, sid, s.now, reason));
  }

  lemma CleanupSound(s: State)
    requires Sound(s)
    ensures Sound(DropDeadSessions(s))
    ensures Sound(DropDeadTokens(s))
  {
  }

  lemma StepSound(cfg: Config, s: State, e: Event)
    requires Sound(s)
    ensures Sound(Step(cfg, s, e).0)
  {
    hide Sound, Touch, Handle, DoLogin, DoRefresh, DoForgotPassword, DoResetPassword, DoVerifyEmail,
      DropDeadSessions, DropDeadTokens;
    var t, r := Tick(s, e.elapsed), e.request;
    assert Sound(t) by { TickSound(s, e.elapsed); }
    if Guarded(r) {
      if Admits(t, TokenOf(r)) {
        TouchSound(cfg, t, TokenOf(r).sessionId);
        HandleSound(cfg, Touch(cfg, t, TokenOf(r).sessionId), r);
      }
    } else {
      match r
      case Login(email, password) => LoginSound(cfg, t, email, password);
      case Refresh(token) => RefreshSound(cfg, t, token);
      case ForgotPassword(email) => ForgotPasswordSound(cfg, t, email);
      case ResetPassword(raw, newPassword) => ResetPasswordSound(t, raw, newPassword);
      case VerifyEmail(raw) => VerifyEmailSound(t, raw);
      case CleanupSessions => CleanupSound(t);
      case CleanupTokens => CleanupSound(t);
      case Idle =>
    }
  }

  lemma TickSound(s: State, elapsed: nat)
    requires Sound(s)
    ensures Sound(Tick(s, elapsed))
  {
  }

  lemma {:induction false} RunSound(cfg: Config, s: State, es: seq<Event>)
    requires Initial(s)
    ensures Sound(After(cfg, s, es))
  {
    hide Step;
    if es != [] {
      RunSound(cfg, s, es[..|es| - 1]);
      StepSound(cfg, After(cfg, s, es[..|es| - 1]), es[|es| - 1]);
    }
  }

  // ------------------------------------------------------------------ main results

  /** Over every run, each unrevoked session belongs to an existing, undeleted, active user. */
  lemma UnrevokedSessionHasActiveOwner(cfg: Config, run: Run, k: nat, sid: SessionId)
    requires IsRun(cfg, run) && k <= |run.events|
    requires sid in run.states[k].store.rows && Unrevoked(run.states[k].store.rows[sid])
    ensures ActiveUser(run.states[k], run.states[k].store.rows[sid].userId)
  {
    hide Step;
    RunState(cfg, run, k);
    RunSound(cfg, run.states[0], run.events[..k]);
  }

  /** So a request that the guard admits comes from an active user, although the guard never asks. */
  lemma AdmittedCallerIsActive(cfg: Config, run: Run, k: nat)
    requires IsRun(cfg, run) && k < |run.events| && Guarded(run.events[k].request)
    requires Admits(Tick(run.states[k], run.events[k].elapsed), TokenOf(run.events[k].request))
    ensures ActiveUser(run.states[k], TokenOf(run.events[k].request).userId)
  {
    hide Step;
    RunState(cfg, run, k);
    RunSound(cfg, run.states[0], run.events[..k]);
  }

  /** And refresh never reaches its inactive-account rejection. */
  lemma InactiveRefreshUnreachable(cfg: Config, run: Run, k: nat)
    requires IsRun(cfg, run) && k < |run.events| && run.events[k].request.Refresh?
    ensures run.outcomes[k] != Failed(AccountInactive)
  {
    RunState(cfg, run, k);
    RunStep(cfg, run, k);
    RunSound(cfg, run.states[0], run.events[..k]);
    RefreshOfSound(cfg, run.states[k], run.events[k].elapsed, run.events[k].request.refreshToken);
  }

  lemma RefreshOfSound(cfg: Config, s: State, elapsed: nat, token: RefreshToken)
    requires Sound(s)
    ensures Step(cfg, s, Event(elapsed, Refresh(token))).1 != Failed(AccountInactive)
  {
    hide RevokeRows;
  }

  /** Over every run, each unrevoked session was opened with its owner's present password digest, or
   *  is the session whose own profile change stored it: no other session survives a new password. */
  lemma UnrevokedSessionKnowsPassword(cfg: Config, run: Run, k: nat, sid: SessionId)
    requires IsRun(cfg, run) && k <= |run.events|
    requires sid in run.states[k].store.rows && Unrevoked(run.states[k].store.rows[sid])
    ensures var uid := run.states[k].store.rows[sid].userId;
            uid in run.states[k].users && PresentCredential(run.states[k], sid, uid)
  {
    hide Step;
    RunState(cfg, run, k);
    RunSound(cfg, run.states[0], run.events[..k]);
  }

  /** compromisedAt marks exactly the sessions revoked for token reuse. */
  lemma CompromisedMeansReuse(cfg: Config, run: Run, k: nat, sid: SessionId)
    requires IsRun(cfg, run) && k <= |run.events| && sid in run.states[k].store.rows
    ensures var row := run.states[k].store.rows[sid];
            && (row.compromisedAt.Some? <==> row.revokedReason == Some(TokenReuse))
            && (row.compromisedAt.Some? ==> row.compromisedAt == row.revokedAt)
  {
    hide Step;
    RunState(cfg, run, k);
    RunSound(cfg, run.states[0], run.events[..k]);
  }
}
