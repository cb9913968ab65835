/** What an accepted request is still worth later in the run: how long the refresh token just issued is good,
 *  and how long a deactivated user stays shut out. */
module AuthLiveness {
  import opened Wrappers
  import opened AuthModel
  import opened AuthEffects
  import opened AuthEmails
  import opened AuthEvolution
  import opened AuthOwners
  import opened AuthRotation
  import AuthActivity
  import Text

  // ------------------------------------------------------------------ every answer of a refresh

  /** Signed, unexpired, and its session is there and its user's. */
  predicate Recognised(s: State, now: Time, token: RefreshToken) {
    && token in s.store.refreshMinted && now / 1000 < token.expSeconds
    && token.sessionId in s.store.rows && s.store.rows[token.sessionId].userId == token.userId
  }

  predicate Over(row: Session, now: Time) { row.revokedAt.Some? || (row.expiresAt.Some? && row.expiresAt.value <= now) }

  /** Over every run the answer of a refresh is decided by the token, the session's state and its version alone:
   *  the owner of a session that is not over is active, and the digest is that of the present version. */
  lemma RefreshAnswersExactly(cfg: Config, run: Run, k: nat, token: RefreshToken)
    requires ValidConfig(cfg) && IsRun(cfg, run) && k < |run.events| && run.events[k].request == Refresh(token)
    ensures var (s, now, answer) := (run.states[k], run.states[k].now + run.events[k].elapsed, run.outcomes[k]);
            && (answer == Failed(InvalidRefreshToken) <==> !Recognised(s, now, token))
            && (Recognised(s, now, token) ==>
                  var row := s.store.rows[token.sessionId];
                  && (answer == Failed(SessionNotActive) <==> Over(row, now))
                  && (answer == Failed(RefreshTokenReuse) <==> !Over(row, now) && row.tokenVersion != token.tokenVersion)
                  && (answer.Issued? <==> !Over(row, now) && row.tokenVersion == token.tokenVersion))
            && (answer == Failed(InvalidRefreshToken) || answer == Failed(SessionNotActive) ==> run.states[k + 1] == s.(now := now))
  {
    hide Step, Rotation, Sound;
    RunState(cfg, run, k);
    RunStep(cfg, run, k);
    RunRotation(cfg, run.states[0], run.events[..k]);
    RunSound(cfg, run.states[0], run.events[..k]);
    assert run.events[k] == Event(run.events[k].elapsed, Refresh(token));
    SoundRefreshAnswers(cfg, run.states[k], run.events[k]);
  }

  lemma SoundRefreshAnswers(cfg: Config, s: State, e: Event)
    requires ValidConfig(cfg) && Rotation(s.store, s.next) && Sound(s) && e.request.Refresh?
    ensures var (now, token, answer) := (s.now + e.elapsed, e.request.refreshToken, Step(cfg, s, e).1);
            && (answer == Failed(InvalidRefreshToken) <==> !Recognised(s, now, token))
            && (Recognised(s, now, token) ==>
                  var row := s.store.rows[token.sessionId];
                  && (answer == Failed(SessionNotActive) <==> Over(row, now))
                  && (answer == Failed(RefreshTokenReuse) <==> !Over(row, now) && row.tokenVersion != token.tokenVersion)
                  && (answer.Issued? <==> !Over(row, now) && row.tokenVersion == token.tokenVersion))
            && (answer == Failed(InvalidRefreshToken) || answer == Failed(SessionNotActive) ==> Step(cfg, s, e).0 == s.(now := now))
  {
    hide RevokeRows, Rotate;
    var t, token := Tick(s, e.elapsed), e.request.refreshToken;
    if Recognised(s, t.now, token) && !Over(s.store.rows[token.sessionId], t.now) {
      OwnerActive(s, token.sessionId);
      if s.store.rows[token.sessionId].tokenVersion == token.tokenVersion {
        CurrentCompares(cfg, s, token);
        RotateIssues(cfg, t, token.sessionId, token.userId);
      }
    }
  }

  lemma OwnerActive(s: State, sid: SessionId)
    requires Sound(s) && sid in s.store.rows && Unrevoked(s.store.rows[sid])
    ensures ActiveUser(s, s.store.rows[sid].userId)
  {
  }

  lemma CurrentCompares(cfg: Config, s: State, token: RefreshToken)
    requires ValidConfig(cfg) && Rotation(s.store, s.next) && token in s.store.refreshMinted
    requires token.sessionId in s.store.rows && s.store.rows[token.sessionId].tokenVersion == token.tokenVersion
    ensures cfg.compare(Jwt(token), s.store.rows[token.sessionId].refreshTokenHash)
  {
    var digest := s.store.rows[token.sessionId].refreshTokenHash;
    assert HoldsCurrent(s.store, token.sessionId);
    assert digest == Digest(Jwt(token), digest.salt);
  }

  // ------------------------------------------------------------------ the token just issued

  /** Behind the guard no tokens are issued. */
  lemma HandleIssuesNothing(cfg: Config, s: State, r: Request)
    requires Guarded(r)
    ensures !Handle(cfg, s, r).1.Issued?
  {
    hide RevokeRow, RevokeRows, RevokeUserRows, CreateToken, RevokedByUpdate, EditedUser, DropTokensOf, ProfilePassword, ProfileEmail, Text.Normalize;
  }

  lemma IssuedBy(cfg: Config, s: State, e: Event)
    requires Step(cfg, s, e).1.Issued?
    ensures e.request.Login? || e.request.Refresh?
  {
    hide Handle, Touch, Admits, DoForgotPassword, DropDeadSessions, DropDeadTokens, RevokeRows, ConsumableToken;
    if Guarded(e.request) {
      HandleIssuesNothing(cfg, Touch(cfg, Tick(s, e.elapsed), TokenOf(e.request).sessionId), e.request);
    } else {
      ForgotDone(cfg, Tick(s, e.elapsed), e.request);
    }
  }

  lemma ForgotDone(cfg: Config, s: State, r: Request)
    ensures r.ForgotPassword? ==> DoForgotPassword(cfg, s, r.email).1 == Done
  {
  }

  /** The session of an answer as the answer leaves it: open, at the version of the token, and expiring a
   *  session lifetime from now; and how long the token lasts. */
  ghost predicate Renewed(cfg: Config, s: State, answer: Outcome) {
    && answer.Issued? && answer.refresh in s.store.refreshMinted
    && answer.refresh.expSeconds == s.now / 1000 + cfg.refreshLifetimeSeconds
    && answer.refresh.sessionId in s.store.rows
    && var row := s.store.rows[answer.refresh.sessionId];
       && row.revokedAt.None? && row.userId == answer.refresh.userId && row.tokenVersion == answer.refresh.tokenVersion
       && row.expiresAt == Some(s.now + cfg.sessionLifetimeMs)
  }

  lemma StepKeepsTime(cfg: Config, s: State, e: Event)
    ensures Step(cfg, s, e).0.now == s.now + e.elapsed
  {
    hide Handle, DoLogin, DoRefresh, Touch, Admits, LoggedIn, Text.Normalize, Step, Opens, Rotates;
    var t, r := Tick(s, e.elapsed), e.request;
    StepShape(cfg, s, e);
    if Touches(t, r) {
      TouchFrame(cfg, t, TokenOf(r).sessionId);
    } else if Opens(cfg, t, r) {
      assert LoggedIn(t, LoginUser(t, r)).now == t.now by { LoggedInTime(t, LoginUser(t, r)); }
    }
  }

  lemma LoggedInTime(s: State, uid: UserId)
    requires uid in s.users
    ensures LoggedIn(s, uid).now == s.now
  {
  }

  lemma IssuedWasRedeemable(cfg: Config, s: State, e: Event)
    requires e.request.Refresh? && Step(cfg, s, e).1.Issued?
    ensures Redeemable(Tick(s, e.elapsed), e.request.refreshToken)
  {
    hide DoRefresh, Redeemable;
    RotatesShape(cfg, Tick(s, e.elapsed), e.request);
  }

  lemma StepRenews(cfg: Config, s: State, e: Event)
    requires DistinctEmails(s.users) && IdsDrawn(s)
    ensures Step(cfg, s, e).1.Issued? ==> Renewed(cfg, Step(cfg, s, e).0, Step(cfg, s, e).1)
  {
    hide Step, DistinctEmails, Text.Normalize;
    if !Step(cfg, s, e).1.Issued? {
      return;
    }
    IssuedBy(cfg, s, e);
    StepKeepsTime(cfg, s, e);
    if e.request.Login? {
      LoginAnswersExactly(cfg, s, e);
      var uid :| MayEnter(cfg, s.users, s.now + e.elapsed, e.request.email, e.request.password, uid);
      LoginOpens(cfg, s, e, uid);
    } else {
      RefreshRotates(cfg, s, e);
      IssuedWasRedeemable(cfg, s, e);
    }
  }

  /** Over every run: what a login or a refresh answers leaves its session expiring one lifetime later. */
  lemma AcceptanceRenews(cfg: Config, run: Run, k: nat)
    requires IsRun(cfg, run) && k < |run.events| && run.outcomes[k].Issued?
    ensures Renewed(cfg, run.states[k + 1], run.outcomes[k])
  {
    hide Step, Initial, DistinctEmails, Renewed, AuthActionTokens.OneOutstanding;
    RunsMeet(cfg, run, k);
    RunStep(cfg, run, k);
    StepRenews(cfg, run.states[k], run.events[k]);
  }

  /** The row is open, at the version, and expires then. */
  ghost predicate OpenAt(rows: map<SessionId, Session>, sid: SessionId, uid: UserId, version: nat, expiry: Time) {
    && sid in rows && rows[sid].revokedAt.None? && rows[sid].userId == uid
    && rows[sid].tokenVersion == version && rows[sid].expiresAt == Some(expiry)
  }

  /** The session was neither revoked nor rotated: what is left of it is open and at the version. */
  ghost predicate Undisturbed(rows: map<SessionId, Session>, sid: SessionId, version: nat) {
    sid in rows ==> rows[sid].revokedAt.None? && rows[sid].tokenVersion == version
  }

  lemma QuietKeepsOpen(a: map<SessionId, Session>, b: map<SessionId, Session>, sid: SessionId, uid: UserId, version: nat, expiry: Time)
    requires RowsQuiet(a, b) && OpenAt(a, sid, uid, version, expiry) && sid in b && Undisturbed(b, sid, version)
    ensures OpenAt(b, sid, uid, version, expiry)
  {
  }

  lemma TouchKeepsOpen(cfg: Config, s: State, other: SessionId, sid: SessionId, uid: UserId, version: nat, expiry: Time)
    requires OpenAt(s.store.rows, sid, uid, version, expiry)
    ensures OpenAt(Touch(cfg, s, other).store.rows, sid, uid, version, expiry)
  {
  }

  lemma OpeningKeepsOpen(cfg: Config, s: State, uid: UserId, sid: SessionId, owner: UserId, version: nat, expiry: Time)
    requires uid in s.users && sid < s.next && OpenAt(s.store.rows, sid, owner, version, expiry)
    ensures OpenAt(OpenSession(cfg, LoggedIn(s, uid), uid).0.store.rows, sid, owner, version, expiry)
  {
  }

  lemma RotatingKeepsOpen(cfg: Config, s: State, token: RefreshToken, sid: SessionId, uid: UserId, version: nat, expiry: Time)
    requires Redeemable(s, token) && OpenAt(s.store.rows, sid, uid, version, expiry)
    requires Undisturbed(Rotate(cfg, s, token.sessionId, token.userId).0.store.rows, sid, version)
    ensures OpenAt(Rotate(cfg, s, token.sessionId, token.userId).0.store.rows, sid, uid, version, expiry)
  {
  }

  /** Only the cleanup deletes session rows, and it spares the open and unexpired ones. */
  lemma StepKeepsRow(cfg: Config, s: State, e: Event, sid: SessionId)
    requires sid in s.store.rows && s.store.rows[sid].revokedAt.None?
    requires s.store.rows[sid].expiresAt.None? || s.now + e.elapsed <= s.store.rows[sid].expiresAt.value
    ensures sid in Step(cfg, s, e).0.store.rows
  {
    hide Handle, Touch, Admits, DoLogin, DoRefresh, DoResetPassword, DoForgotPassword, DoVerifyEmail;
    var t, r := Tick(s, e.elapsed), e.request;
    if Touches(t, r) {
      AuthActivity.AdmittedKeepsRows(cfg, s, e);
    } else if !Guarded(r) {
      PublicKeepsRows(cfg, t, r);
    }
  }

  lemma PublicKeepsRows(cfg: Config, s: State, r: Request)
    ensures r.Login? ==> s.store.rows.Keys <= DoLogin(cfg, s, r.email, r.password).0.store.rows.Keys
    ensures r.Refresh? ==> s.store.rows.Keys <= DoRefresh(cfg, s, r.refreshToken).0.store.rows.Keys
    ensures r.ForgotPassword? ==> DoForgotPassword(cfg, s, r.email).0.store == s.store
    ensures r.ResetPassword? ==> s.store.rows.Keys <= DoResetPassword(s, r.raw, r.newPassword).0.store.rows.Keys
    ensures r.VerifyEmail? ==> DoVerifyEmail(s, r.raw).0.store == s.store
  {
    hide Text.Normalize, ConsumableToken;
  }

  lemma OpenFacts(cfg: Config, s: State, e: Event, sid: SessionId, uid: UserId, version: nat, expiry: Time)
    requires IdsDrawn(s) && OpenAt(s.store.rows, sid, uid, version, expiry) && s.now + e.elapsed <= expiry
    ensures sid < s.next && sid in Step(cfg, s, e).0.store.rows
  {
    hide Step;
    StepKeepsRow(cfg, s, e, sid);
  }

  /** Until it expires, an open session that no step revokes or rotates is there, and its expiry does not move. */
  lemma StepKeepsOpen(cfg: Config, s: State, e: Event, sid: SessionId, uid: UserId, version: nat, expiry: Time)
    requires IdsDrawn(s) && OpenAt(s.store.rows, sid, uid, version, expiry) && s.now + e.elapsed <= expiry
    requires Undisturbed(Step(cfg, s, e).0.store.rows, sid, version)
    ensures OpenAt(Step(cfg, s, e).0.store.rows, sid, uid, version, expiry)
  {
    hide Step, Opens, Rotates, Admits, Touch, Text.Normalize, LoggedIn, OpenAt, Undisturbed, IdsDrawn;
    var t, r, u := Tick(s, e.elapsed), e.request, Step(cfg, s, e).0;
    StepShape(cfg, s, e);
    OpenFacts(cfg, s, e, sid, uid, version, expiry);
    if Touches(t, r) {
      var v := Touch(cfg, t, TokenOf(r).sessionId);
      TouchKeepsOpen(cfg, t, TokenOf(r).sessionId, sid, uid, version, expiry);
      QuietKeepsOpen(v.store.rows, u.store.rows, sid, uid, version, expiry);
    } else if Opens(cfg, t, r) {
      OpeningKeepsOpen(cfg, t, LoginUser(t, r), sid, uid, version, expiry);
    } else if Rotates(cfg, t, r) {
      RotatingKeepsOpen(cfg, t, r.refreshToken, sid, uid, version, expiry);
    } else {
      QuietKeepsOpen(t.store.rows, u.store.rows, sid, uid, version, expiry);
    }
  }

  // ------------------------------------------------------------------ over runs

  /** From state i on up to state j the session was neither revoked nor rotated. */
  ghost predicate LeftAlone(run: Run, i: nat, j: nat, sid: SessionId, version: nat)
    requires j < |run.states|
  {
    forall k: nat | i <= k <= j :: Undisturbed(run.states[k].store.rows, sid, version)
  }

  lemma {:induction false} StaysOpen(cfg: Config, run: Run, i: nat, j: nat, sid: SessionId, uid: UserId, version: nat, expiry: Time)
    requires IsRun(cfg, run) && i <= j <= |run.events| && LeftAlone(run, i, j, sid, version)
    requires OpenAt(run.states[i].store.rows, sid, uid, version, expiry) && run.states[j].now <= expiry
    ensures OpenAt(run.states[j].store.rows, sid, uid, version, expiry)
    decreases j
  {
    hide Step, Initial, OpenAt, Undisturbed, IdsDrawn, DistinctEmails, AuthActionTokens.OneOutstanding;
    if i < j {
      RunsMeet(cfg, run, j - 1);
      RunStep(cfg, run, j - 1);
      StepKeepsTime(cfg, run.states[j - 1], run.events[j - 1]);
      StaysOpen(cfg, run, i, j - 1, sid, uid, version, expiry);
      StepKeepsOpen(cfg, run.states[j - 1], run.events[j - 1], sid, uid, version, expiry);
    }
  }

  /** The refresh token that an accepted login or refresh has just issued, presented again before the session
   *  and the token expire, is accepted exactly when the session was neither revoked nor rotated in between. */
  lemma IssuedTokenWorksExactly(cfg: Config, run: Run, i: nat, j: nat)
    requires ValidConfig(cfg) && IsRun(cfg, run) && i < j < |run.events| && run.outcomes[i].Issued?
    requires run.events[j].request == Refresh(run.outcomes[i].refresh)
    requires run.states[j + 1].now < run.states[i + 1].now + cfg.sessionLifetimeMs
    requires run.states[j + 1].now / 1000 < run.outcomes[i].refresh.expSeconds
    ensures run.outcomes[j].Issued? <==>
              LeftAlone(run, i + 1, j, run.outcomes[i].refresh.sessionId, run.outcomes[i].refresh.tokenVersion)
  {
    hide Step, Initial, Redeemable, LeftAlone;
    AcceptedExactly(cfg, run, j, run.outcomes[i].refresh);
    RunStep(cfg, run, j);
    StepKeepsTime(cfg, run.states[j], run.events[j]);
    if LeftAlone(run, i + 1, j, run.outcomes[i].refresh.sessionId, run.outcomes[i].refresh.tokenVersion) {
      LeftAloneRedeemable(cfg, run, i, j);
    }
    if run.outcomes[j].Issued? {
      RedeemableLeftAlone(cfg, run, i, j);
    }
  }

  lemma LeftAloneRedeemable(cfg: Config, run: Run, i: nat, j: nat)
    requires IsRun(cfg, run) && i < j < |run.events| && run.outcomes[i].Issued?
    requires LeftAlone(run, i + 1, j, run.outcomes[i].refresh.sessionId, run.outcomes[i].refresh.tokenVersion)
    requires run.states[j].now + run.events[j].elapsed < run.states[i + 1].now + cfg.sessionLifetimeMs
    requires (run.states[j].now + run.events[j].elapsed) / 1000 < run.outcomes[i].refresh.expSeconds
    ensures Redeemable(Tick(run.states[j], run.events[j].elapsed), run.outcomes[i].refresh)
  {
    hide Step, Initial, LeftAlone, RowEvolves;
    var token := run.outcomes[i].refresh;
    AcceptanceRenews(cfg, run, i);
    StaysOpen(cfg, run, i + 1, j, token.sessionId, token.userId, token.tokenVersion, run.states[i + 1].now + cfg.sessionLifetimeMs);
    UnrevokedSessionHasActiveOwner(cfg, run, j, token.sessionId);
    StatesEvolve(cfg, run, i + 1, j);
  }

  lemma StatesEvolve(cfg: Config, run: Run, i: nat, j: nat)
    requires IsRun(cfg, run) && i <= j <= |run.events|
    ensures Evolves(run.states[i], run.states[j])
  {
    hide Step, Initial, Evolves;
    RunState(cfg, run, i);
    RunState(cfg, run, j);
    RunEvolves(cfg, run.states[0], run.events, i, j);
  }

  lemma RedeemableLeftAlone(cfg: Config, run: Run, i: nat, j: nat)
    requires IsRun(cfg, run) && i < j < |run.events| && run.outcomes[i].Issued?
    requires Redeemable(Tick(run.states[j], run.events[j].elapsed), run.outcomes[i].refresh)
    ensures LeftAlone(run, i + 1, j, run.outcomes[i].refresh.sessionId, run.outcomes[i].refresh.tokenVersion)
  {
    hide Step, Initial, DistinctEmails, AuthActionTokens.OneOutstanding;
    var token := run.outcomes[i].refresh;
    AcceptanceRenews(cfg, run, i);
    RunsMeet(cfg, run, i + 1);
    forall k: nat | i + 1 <= k <= j
      ensures Undisturbed(run.states[k].store.rows, token.sessionId, token.tokenVersion)
    {
      StatesEvolve(cfg, run, i + 1, k);
      StatesEvolve(cfg, run, k, j);
    }
  }

  // ------------------------------------------------------------------ deactivated users

  predicate SwitchedOffUser(users: map<UserId, User>, id: UserId) { id in users && !users[id].isActive }

  /** Still switched off, and still deleted if that. */
  ghost predicate KeptOff(a: map<UserId, User>, b: map<UserId, User>, id: UserId)
    requires id in a
  {
    SwitchedOffUser(b, id) && (a[id].deletedAt.Some? ==> b[id].deletedAt.Some?)
  }

  /** An accepted admin change that activates the user. */
  ghost predicate Activates(e: Event, answer: Outcome, id: UserId) {
    e.request.UpdateUser? && e.request.id == id && e.request.userChange.isActive == Some(true) && answer == Done
  }

  lemma LoginKeepsOff(cfg: Config, s: State, email: string, password: string, id: UserId)
    requires SwitchedOffUser(s.users, id)
    ensures KeptOff(s.users, DoLogin(cfg, s, email, password).0.users, id)
  {
    hide Text.Normalize;
  }

  lemma ActionsKeepOff(s: State, raw: nat, newPassword: string, id: UserId)
    requires SwitchedOffUser(s.users, id)
    ensures KeptOff(s.users, DoResetPassword(s, raw, newPassword).0.users, id)
    ensures KeptOff(s.users, DoVerifyEmail(s, raw).0.users, id)
  {
    hide RevokeRows, ConsumableToken;
  }

  lemma PublicKeepsOff(cfg: Config, s: State, r: Request, id: UserId)
    requires !Guarded(r) && SwitchedOffUser(s.users, id)
    ensures KeptOff(s.users, Serve(cfg, s, r).0.users, id)
  {
    hide DoLogin, DoRefresh, DoResetPassword, DoVerifyEmail;
    match r
    case Login(email, password) => LoginKeepsOff(cfg, s, email, password, id);
    case Refresh(token) => RefreshFrame(cfg, s, token);
    case ResetPassword(raw, newPassword) => ActionsKeepOff(s, raw, newPassword, id);
    case VerifyEmail(raw) => ActionsKeepOff(s, raw, "", id);
    case _ =>
  }

  lemma ProfileKeepsOff(cfg: Config, s: State, token: AccessToken, change: ProfileChange, id: UserId)
    requires SwitchedOffUser(s.users, id)
    ensures KeptOff(s.users, DoUpdateProfile(cfg, s, token, change).0.users, id)
  {
    hide RevokeRows, EmailTaken, Text.Lower, ConsumeOutstanding;
  }

  lemma UpdateKeepsOff(s: State, other: UserId, change: UserChange, id: UserId)
    requires SwitchedOffUser(s.users, id)
    requires !(other == id && change.isActive == Some(true) && DoUpdateUser(s, other, change).1 == Done)
    ensures KeptOff(s.users, DoUpdateUser(s, other, change).0.users, id)
  {
    hide EmailTaken, Text.Normalize, RevokedByUpdate;
  }

  lemma HandleKeepsOff(cfg: Config, s: State, r: Request, id: UserId)
    requires Guarded(r) && SwitchedOffUser(s.users, id) && id < s.next
    requires !Activates(Event(0, r), Handle(cfg, s, r).1, id)
    ensures KeptOff(s.users, Handle(cfg, s, r).0.users, id)
  {
    hide DoUpdateProfile, DoUpdateUser, RevokeRow, RevokeRows, RevokeUserRows, Text.Normalize;
    match r
    case UpdateProfile(token, change) => ProfileKeepsOff(cfg, s, token, change, id);
    case UpdateUser(token, other, change) => UpdateKeepsOff(s, other, change, id);
    case _ =>
  }

  lemma StepKeepsOff(cfg: Config, s: State, e: Event, id: UserId)
    requires SwitchedOffUser(s.users, id) && id < s.next && !Activates(e, Step(cfg, s, e).1, id)
    ensures KeptOff(s.users, Step(cfg, s, e).0.users, id)
  {
    hide Handle, Touch, Admits;
    var t, r := Tick(s, e.elapsed), e.request;
    if Touches(t, r) {
      TouchFrame(cfg, t, TokenOf(r).sessionId);
      HandleKeepsOff(cfg, Touch(cfg, t, TokenOf(r).sessionId), r, id);
    } else if !Guarded(r) {
      PublicKeepsOff(cfg, t, r, id);
    }
  }

  lemma {:induction false} StaysOff(cfg: Config, run: Run, i: nat, j: nat, id: UserId)
    requires IsRun(cfg, run) && i <= j <= |run.events| && SwitchedOffUser(run.states[i].users, id)
    requires forall k: nat | i <= k < j :: !Activates(run.events[k], run.outcomes[k], id)
    ensures SwitchedOffUser(run.states[j].users, id)
    decreases j
  {
    hide Step, Initial, SwitchedOffUser, Activates, DistinctEmails, AuthActionTokens.OneOutstanding;
    if i < j {
      StaysOff(cfg, run, i, j - 1, id);
      RunsMeet(cfg, run, j - 1);
      RunStep(cfg, run, j - 1);
      StepKeepsOff(cfg, run.states[j - 1], run.events[j - 1], id) by { OffDrawn(run.states[j - 1], id); }
    }
  }

  lemma OffDrawn(s: State, id: UserId)
    requires IdsDrawn(s) && SwitchedOffUser(s.users, id)
    ensures id < s.next
  {
  }

  /** A switched-off user gets no tokens and nothing past the guard, and a login under the address fails. */
  ghost predicate ShutOut(s: State, e: Event, answer: Outcome, id: UserId) {
    && (answer.Issued? ==> answer.refresh.userId != id && answer.access.userId != id)
    && (e.request.Refresh? && e.request.refreshToken.userId == id ==> answer.Failed?)
    && (Guarded(e.request) && TokenOf(e.request).userId == id ==> answer == Failed(SessionNotActive))
    && (e.request.Login? && Owner(s.users, id, Text.Normalize(e.request.email)) ==>
          answer == Failed(if s.users[id].passwordHash.Some? then AccountInactive else InvalidCredentials))
  }

  lemma OffLogin(cfg: Config, s: State, e: Event, id: UserId)
    requires DistinctEmails(s.users) && IdsDrawn(s) && SwitchedOffUser(s.users, id) && e.request.Login?
    ensures ShutOut(s, e, Step(cfg, s, e).1, id)
  {
    hide Step, DistinctEmails, Text.Normalize;
    LoginAnswersExactly(cfg, s, e);
    if Step(cfg, s, e).1.Issued? {
      var uid :| MayEnter(cfg, s.users, s.now + e.elapsed, e.request.email, e.request.password, uid);
      LoginOpens(cfg, s, e, uid);
    }
    if Owner(s.users, id, Text.Normalize(e.request.email)) {
      OnlyCandidate(cfg, s.users, s.now + e.elapsed, e.request.email, e.request.password, id);
    }
  }

  lemma OffRefresh(cfg: Config, s: State, e: Event, id: UserId)
    requires SwitchedOffUser(s.users, id) && e.request.Refresh?
    ensures ShutOut(s, e, Step(cfg, s, e).1, id)
  {
    hide Step, Text.Normalize;
    if Step(cfg, s, e).1.Issued? {
      IssuedWasRedeemable(cfg, s, e);
      RefreshRotates(cfg, s, e);
    }
    RefreshOutcome(cfg, s, e.elapsed, e.request.refreshToken);
    assert e == Event(e.elapsed, Refresh(e.request.refreshToken));
  }

  /** Over every run, from a state in which a user is switched off until an accepted change activates them. */
  lemma OffIsShutOut(cfg: Config, run: Run, i: nat, j: nat, id: UserId)
    requires IsRun(cfg, run) && i <= j < |run.events| && SwitchedOffUser(run.states[i].users, id)
    requires forall k: nat | i <= k < j :: !Activates(run.events[k], run.outcomes[k], id)
    ensures SwitchedOffUser(run.states[j].users, id) && ShutOut(run.states[j], run.events[j], run.outcomes[j], id)
  {
    hide Step, Initial, Activates, DistinctEmails, AuthActionTokens.OneOutstanding, Admits, Text.Normalize;
    StaysOff(cfg, run, i, j, id);
    RunsMeet(cfg, run, j);
    RunStep(cfg, run, j);
    var s, e := run.states[j], run.events[j];
    if e.request.Login? {
      OffLogin(cfg, s, e, id);
    } else if e.request.Refresh? {
      OffRefresh(cfg, s, e, id);
    } else {
      if run.outcomes[j].Issued? {
        IssuedBy(cfg, s, e);
      }
      if Guarded(e.request) && TokenOf(e.request).userId == id {
        OffGuarded(cfg, run, j, id);
      }
    }
  }

  lemma OffGuarded(cfg: Config, run: Run, j: nat, id: UserId)
    requires IsRun(cfg, run) && j < |run.events| && Guarded(run.events[j].request) && TokenOf(run.events[j].request).userId == id
    requires SwitchedOffUser(run.states[j].users, id)
    ensures run.outcomes[j] == Failed(SessionNotActive)
  {
    hide Initial, Handle, Touch, Admits;
    RunStep(cfg, run, j);
    if Admits(Tick(run.states[j], run.events[j].elapsed), TokenOf(run.events[j].request)) {
      AdmittedCallerIsActive(cfg, run, j);
    }
  }

  /** An accepted admin change that deactivates a user shuts the user out at once and until an accepted
   *  change activates them again. */
  lemma DeactivationHolds(cfg: Config, run: Run, i: nat, j: nat, id: UserId)
    requires IsRun(cfg, run) && i < j < |run.events| && run.outcomes[i] == Done
    requires var r := run.events[i].request; r.UpdateUser? && r.id == id && r.userChange.isActive == Some(false)
    requires forall k: nat | i < k < j :: !Activates(run.events[k], run.outcomes[k], id)
    ensures SwitchedOffUser(run.states[j].users, id) && ShutOut(run.states[j], run.events[j], run.outcomes[j], id)
  {
    hide Step, Initial, Activates, DistinctEmails, AuthActionTokens.OneOutstanding, ShutOut, Text.Normalize, ClosedFor, ClosedOr;
    RunsMeet(cfg, run, i);
    RunStep(cfg, run, i);
    GuardDecides(cfg, run.states[i], run.events[i]);
    UpdateStores(cfg, run.states[i], run.events[i]);
    OffIsShutOut(cfg, run, i + 1, j, id);
  }

  predicate Removed(users: map<UserId, User>, id: UserId) { SwitchedOffUser(users, id) && users[id].deletedAt.Some? }

  lemma RemovedNotActivated(cfg: Config, s: State, e: Event, id: UserId)
    requires Removed(s.users, id)
    ensures !Activates(e, Step(cfg, s, e).1, id)
  {
    hide Touch, Admits;
    if e.request.UpdateUser? {
      TouchFrame(cfg, Tick(s, e.elapsed), e.request.token.sessionId);
    }
  }

  lemma {:induction false} StaysRemoved(cfg: Config, run: Run, i: nat, j: nat, id: UserId)
    requires IsRun(cfg, run) && i <= j <= |run.events| && Removed(run.states[i].users, id)
    ensures Removed(run.states[j].users, id)
    ensures forall k: nat | i <= k < j :: !Activates(run.events[k], run.outcomes[k], id)
    decreases j
  {
    hide Step, Initial, Activates, DistinctEmails, AuthActionTokens.OneOutstanding;
    if i < j {
      StaysRemoved(cfg, run, i, j - 1, id);
      RunsMeet(cfg, run, j - 1);
      RunStep(cfg, run, j - 1);
      RemovedNotActivated(cfg, run.states[j - 1], run.events[j - 1], id);
      StepKeepsOff(cfg, run.states[j - 1], run.events[j - 1], id);
    }
  }

  /** An accepted removal is for good: nothing activates the user again, so nothing of theirs is accepted. */
  lemma RemovalIsFinal(cfg: Config, run: Run, i: nat, j: nat, id: UserId)
    requires IsRun(cfg, run) && i < j < |run.events| && run.outcomes[i] == Done
    requires run.events[i].request.RemoveUser? && run.events[i].request.id == id
    ensures Removed(run.states[j].users, id) && ShutOut(run.states[j], run.events[j], run.outcomes[j], id)
  {
    hide Step, Initial, Activates, DistinctEmails, AuthActionTokens.OneOutstanding, ShutOut, ClosedFor;
    RunsMeet(cfg, run, i);
    RunStep(cfg, run, i);
    GuardDecides(cfg, run.states[i], run.events[i]);
    RemoveHides(cfg, run.states[i], run.events[i]);
    StaysRemoved(cfg, run, i + 1, j, id);
    OffIsShutOut(cfg, run, i + 1, j, id);
  }
}
