/** Throttled activity: touchSession skips most writes, yet lastActiveAt is never stale by a window. */
module AuthActivity {
  import opened Wrappers
  import opened AuthModel
  import opened AuthEvolution
  import opened AuthRotation
  import Text

  /** A live touch key proves that the session was active less than a window before the key expires. */
  ghost predicate Activity(cfg: Config, s: State) {
    && (forall sid | sid in s.store.touched :: sid < s.next)
    && (forall sid | sid in s.store.rows :: s.store.rows[sid].lastActiveAt <= s.now)
    && (forall sid | sid in s.store.rows && sid in s.store.touched ::
          s.store.touched[sid] <= s.store.rows[sid].lastActiveAt + WindowMs(cfg))
  }

  lemma QuietActivity(cfg: Config, s: State, t: State)
    requires Quiet(s, t) && Activity(cfg, s)
    ensures Activity(cfg, t)
  {
  }

  lemma TouchActivity(cfg: Config, s: State, sid: SessionId)
    requires Activity(cfg, s) && sid < s.next
    requires sid in s.store.rows && Unrevoked(s.store.rows[sid])
    ensures Activity(cfg, Touch(cfg, s, sid))
  {
  }

  lemma OpenActivity(cfg: Config, s: State, uid: UserId)
    requires Activity(cfg, s) && uid in s.users
    ensures Activity(cfg, OpenSession(cfg, s, uid).0)
  {
  }

  lemma RotateActivity(cfg: Config, s: State, token: RefreshToken)
    requires Activity(cfg, s) && Redeemable(s, token)
    ensures Activity(cfg, Rotate(cfg, s, token.sessionId, token.userId).0)
  {
  }

  lemma StepActivity(cfg: Config, s: State, e: Event)
    requires Activity(cfg, s) && Rotation(s.store, s.next)
    ensures Activity(cfg, Step(cfg, s, e).0)
  {
    hide Rotation, Step, Opens, Rotates, Touch, Quiet, OpenSession, Rotate, Text.Normalize;
    var t, r, u := Tick(s, e.elapsed), e.request, Step(cfg, s, e).0;
    StepShape(cfg, s, e);
    RowsBelow(s.store, s.next);
    assert Activity(cfg, t);
    if Touches(t, r) {
      var v := Touch(cfg, t, TokenOf(r).sessionId);
      TouchActivity(cfg, t, TokenOf(r).sessionId);
      QuietActivity(cfg, v, u);
    } else if Opens(cfg, t, r) {
      OpenActivity(cfg, LoggedIn(t, LoginUser(t, r)), LoginUser(t, r));
    } else if Rotates(cfg, t, r) {
      RotateActivity(cfg, t, r.refreshToken);
    } else {
      QuietActivity(cfg, t, u);
    }
  }

  lemma {:induction false} RunActivity(cfg: Config, s: State, es: seq<Event>)
    requires Initial(s)
    ensures Activity(cfg, After(cfg, s, es))
  {
    hide Step, Rotation;
    if es != [] {
      hide Activity;
      RunActivity(cfg, s, es[..|es| - 1]);
      RunRotation(cfg, s, es[..|es| - 1]);
      StepActivity(cfg, After(cfg, s, es[..|es| - 1]), es[|es| - 1]);
    }
  }

  /** After any request the guard has admitted, however the run mixed requests and refreshes before,
   *  the session's lastActiveAt lies less than one throttle window back. */
  lemma ActivityIsAccurate(cfg: Config, run: Run, k: nat)
    requires ValidConfig(cfg) && IsRun(cfg, run) && k < |run.events|
    requires Touches(Tick(run.states[k], run.events[k].elapsed), run.events[k].request)
    ensures var (u, sid) := (run.states[k + 1], TokenOf(run.events[k].request).sessionId);
            sid in u.store.rows && u.store.rows[sid].lastActiveAt <= u.now < u.store.rows[sid].lastActiveAt + WindowMs(cfg)
  {
    hide Step, Rotation;
    var t, r := Tick(run.states[k], run.events[k].elapsed), run.events[k].request;
    RunState(cfg, run, k);
    RunStep(cfg, run, k);
    RunActivity(cfg, run.states[0], run.events[..k]);
    StepShape(cfg, run.states[k], run.events[k]);
    TouchedIsRecent(cfg, t, TokenOf(r).sessionId);
    AdmittedKeepsRows(cfg, run.states[k], run.events[k]);
  }

  /** No request behind the guard deletes a session row. */
  lemma AdmittedKeepsRows(cfg: Config, s: State, e: Event)
    requires Touches(Tick(s, e.elapsed), e.request)
    ensures s.store.rows.Keys <= Step(cfg, s, e).0.store.rows.Keys
  {
    hide Handle, Touch, Admits;
    var t, r := Tick(s, e.elapsed), e.request;
    TouchKeepsRows(cfg, t, TokenOf(r).sessionId);
    HandleKeepsRows(cfg, Touch(cfg, t, TokenOf(r).sessionId), r);
  }

  lemma TouchKeepsRows(cfg: Config, s: State, sid: SessionId)
    ensures s.store.rows.Keys <= Touch(cfg, s, sid).store.rows.Keys
  {
  }

  lemma HandleKeepsRows(cfg: Config, s: State, r: Request)
    requires Guarded(r)
    ensures Handle(cfg, s, r).0.store.rows.Keys == s.store.rows.Keys
  {
    hide RevokeRow, RevokeRows, DoResendVerification, DoUpdateProfile, DoCreateUser, DoUpdateUser, DoRemoveUser;
    match r
    case Logout(token) => RevocationsKeepRows(s, token.userId, token.sessionId, LogoutCurrent, None);
    case LogoutAllSessions(token) => RevocationsKeepRows(s, token.userId, token.sessionId, LogoutAll, None);
    case RevokeSession(token, sid) => RevocationsKeepRows(s, token.userId, sid, ManualRevoke, None);
    case ResendVerification(token) => CreationsKeepRows(cfg, s, token.userId, NewUser("", "", None, true, true));
    case UpdateProfile(token, change) => ProfileKeepsRows(cfg, s, token, change);
    case CreateUser(token, newUser) => CreationsKeepRows(cfg, s, token.userId, newUser);
    case UpdateUser(token, id, change) => UpdateKeepsRows(s, id, change);
    case RemoveUser(token, id) => RemoveKeepsRows(s, token, id);
    case _ =>
  }

  lemma RevocationsKeepRows(s: State, uid: UserId, sid: SessionId, reason: Reason, except: Option<SessionId>)
    ensures RevokeRow(s.store.rows, sid, s.now, reason).Keys == s.store.rows.Keys
    ensures RevokeRows(s.store.rows, uid, s.now, reason, except, None).Keys == s.store.rows.Keys
  {
  }

  lemma CreationsKeepRows(cfg: Config, s: State, uid: UserId, newUser: NewUser)
    ensures DoResendVerification(cfg, s, uid).0.store == s.store
    ensures DoCreateUser(s, newUser).0.store == s.store
  {
    hide ConsumeOutstanding, Text.Normalize;
  }

  lemma ProfileKeepsRows(cfg: Config, s: State, token: AccessToken, change: ProfileChange)
    ensures DoUpdateProfile(cfg, s, token, change).0.store.rows.Keys == s.store.rows.Keys
  {
    hide RevokeRow, RevokeRows, ConsumeOutstanding, FindByEmail, Text.Lower;
    RevocationsKeepRows(s, token.userId, token.sessionId, PasswordChanged, Some(token.sessionId));
  }

  lemma UserRevocationKeepsRows(rows: map<SessionId, Session>, uid: UserId, now: Time, reason: Reason)
    ensures RevokeUserRows(rows, uid, now, reason).Keys == rows.Keys
  {
  }

  lemma EditKeepsRows(rows: map<SessionId, Session>, id: UserId, change: UserChange, now: Time)
    ensures RevokedByUpdate(rows, id, change, now).Keys == rows.Keys
  {
    hide RevokeUserRows;
    UserRevocationKeepsRows(rows, id, now, UserDeactivated);
    UserRevocationKeepsRows(rows, id, now, PasswordChangedByAdmin);
    UserRevocationKeepsRows(RevokeUserRows(rows, id, now, UserDeactivated), id, now, PasswordChangedByAdmin);
  }

  lemma UpdateKeepsRows(s: State, id: UserId, change: UserChange)
    ensures DoUpdateUser(s, id, change).0.store.rows.Keys == s.store.rows.Keys
  {
    hide RevokedByUpdate, EditedUser, Renames, DropTokensOf, EmailTaken, Text.Normalize;
    EditKeepsRows(s.store.rows, id, change, s.now);
    assert DropTokensOf(s, id).store == s.store by { DropKeepsStore(s, id); }
  }

  lemma DropKeepsStore(s: State, id: UserId)
    ensures DropTokensOf(s, id).store == s.store
  {
  }

  lemma RemoveKeepsRows(s: State, token: AccessToken, id: UserId)
    ensures DoRemoveUser(s, token, id).0.store.rows.Keys == s.store.rows.Keys
  {
    hide RevokeUserRows;
    UserRevocationKeepsRows(s.store.rows, id, s.now, UserDeleted);
  }

  lemma TouchedIsRecent(cfg: Config, s: State, sid: SessionId)
    requires 1 <= cfg.throttleSeconds && Activity(cfg, s)
    requires sid in s.store.rows && Unrevoked(s.store.rows[sid])
    ensures var u := Touch(cfg, s, sid);
            && sid in u.store.rows
            && u.store.rows[sid].lastActiveAt <= s.now < u.store.rows[sid].lastActiveAt + WindowMs(cfg)
  {
  }

  /** The event makes touchSession write the session row. */
  ghost predicate WritesActivity(s: State, e: Event, sid: SessionId) {
    var t := Tick(s, e.elapsed);
    Touches(t, e.request) && TokenOf(e.request).sessionId == sid && !TouchCached(t, sid)
  }

  lemma WriteSetsKey(cfg: Config, s: State, e: Event, sid: SessionId)
    requires WritesActivity(s, e, sid)
    ensures var u := Step(cfg, s, e).0;
            sid in u.store.touched && u.store.touched[sid] == u.now + WindowMs(cfg) && u.now == s.now + e.elapsed
  {
    hide Step;
    StepShape(cfg, s, e);
  }

  /** Two writes touchSession makes for one session are at least one window apart. */
  lemma WritesAreSpaced(cfg: Config, run: Run, i: nat, j: nat, sid: SessionId)
    requires IsRun(cfg, run) && i < j < |run.events|
    requires WritesActivity(run.states[i], run.events[i], sid) && WritesActivity(run.states[j], run.events[j], sid)
    ensures run.states[i + 1].now + WindowMs(cfg) <= run.states[j + 1].now
  {
    hide Step;
    RunState(cfg, run, i + 1);
    RunState(cfg, run, j);
    RunStep(cfg, run, i);
    RunStep(cfg, run, j);
    WriteSetsKey(cfg, run.states[i], run.events[i], sid);
    WriteSetsKey(cfg, run.states[j], run.events[j], sid);
    RunEvolves(cfg, run.states[0], run.events, i + 1, j);
  }
}
