/** The authentication tables, and what one request does to them.
 *
 *  A request is one atomic step at one instant: every `new Date()` inside it reads `now`.  Table rows
 *  are values, as a row loaded from the database is until it is saved.  Random identifiers (row
 *  ids, bcrypt salts, raw action tokens, JWT ids) are drawn from the counter `next`.
 *  Signed JWTs are the members of the minted sets.
 */
module AuthModel {
  import opened Wrappers
  import opened Text

  type Time = nat
  type UserId = nat
  type SessionId = nat

  // ------------------------------------------------------------------ secrets and tokens

  datatype Secret = Password(text: string) | Jwt(token: RefreshToken)

  /** A bcrypt digest remembers what it was made from; `Config.compare` decides what matches it. */
  datatype Digest = Digest(secret: Secret, salt: nat)

  datatype RefreshToken =
    RefreshToken(userId: UserId, email: string, sessionId: SessionId, tokenVersion: nat, expSeconds: nat, jti: nat)

  datatype AccessToken =
    AccessToken(userId: UserId, email: string, sessionId: SessionId, expSeconds: nat, jti: nat)

  /** SHA-256 of a raw action token: injective. */
  datatype TokenHash = Sha256(raw: nat)

  datatype Purpose = EmailVerification | PasswordReset

  // ------------------------------------------------------------------ rows

  datatype User = User(
    email: string,
    passwordHash: Option<Digest>,
    isActive: bool,
    deletedAt: Option<Time>,
    failedLoginCount: nat,
    lastFailedLoginAt: Option<Time>,
    lockedUntil: Option<Time>,
    lastLoginAt: Option<Time>,
    passwordChangedAt: Option<Time>,
    emailVerifiedAt: Option<Time>,
    verificationEmailSentAt: Option<Time>,
    avatarKey: Option<string>)

  datatype Reason =
    | LogoutCurrent | LogoutAll | ManualRevoke | PasswordChanged | TokenReuse
    | UserDeactivated | PasswordChangedByAdmin | UserDeleted

  datatype Session = Session(
    userId: UserId,
    refreshTokenHash: Digest,
    tokenVersion: nat,
    issuedAt: Time,
    lastActiveAt: Time,
    lastRefreshedAt: Time,
    expiresAt: Option<Time>,
    revokedAt: Option<Time>,
    revokedReason: Option<Reason>,
    compromisedAt: Option<Time>)

  datatype ActionToken = ActionToken(
    userId: UserId,
    purpose: Purpose,
    tokenHash: TokenHash,
    email: string,
    expiresAt: Time,
    consumedAt: Option<Time>,
    createdAt: Time)

  // ------------------------------------------------------------------ configuration and state

  datatype Config = Config(
    maxFailedLogins: nat,
    lockMinutes: nat,
    throttleSeconds: nat,
    sessionLifetimeMs: nat,
    refreshLifetimeSeconds: nat,
    accessLifetimeSeconds: nat,
    resetMinutes: nat,
    verificationHours: nat,
    compare: (Secret, Digest) -> bool)

  /** What the environment schema demands, and the one fact about bcrypt that is used: a secret
   *  matches its own digest.  Distinct secrets may match too. */
  ghost predicate ValidConfig(cfg: Config) {
    && 1 <= cfg.maxFailedLogins
    && 1 <= cfg.lockMinutes
    && 1 <= cfg.throttleSeconds
    && forall secret, salt :: cfg.compare(secret, Digest(secret, salt))
  }

  function LockMs(cfg: Config): nat { cfg.lockMinutes * 60000 }
  function WindowMs(cfg: Config): nat { cfg.throttleSeconds * 1000 }

  /** The session table with what belongs to it: the Redis keys auth:session-touch:* with their
   *  expiries, the JWTs signed so far, and (history) the password digest each session was opened with. */
  datatype SessionStore = SessionStore(
    rows: map<SessionId, Session>,
    touched: map<SessionId, Time>,
    refreshMinted: set<RefreshToken>,
    accessMinted: set<AccessToken>,
    openedWith: map<SessionId, Option<Digest>>)

  /** `setter` is history: the session whose own profile change stored a user's present digest, if one did. */
  datatype State = State(
    now: Time,
    next: nat,
    users: map<UserId, User>,
    store: SessionStore,
    actionTokens: map<nat, ActionToken>,
    setter: map<UserId, SessionId>)

  datatype Error =
    | InvalidCredentials | AccountInactive | AccountLocked
    | InvalidRefreshToken | SessionNotActive | RefreshTokenReuse
    | InvalidActionToken | NotFound | BadRequest | Forbidden | Conflict

  datatype Outcome =
    | Done
    | Issued(access: AccessToken, refresh: RefreshToken)
    | Failed(error: Error)

  // ------------------------------------------------------------------ requests

  /** What resolving the avatar reference of a profile change yields: no avatar field, one of the
   *  three rejections, or the key to store. */
  datatype Avatar = AvatarAbsent | AvatarRejected | AvatarKey(key: Option<string>)

  datatype ProfileChange = ProfileChange(
    email: Option<string>,
    currentPassword: Option<string>,
    newPassword: Option<string>,
    avatar: Avatar)

  /** rolesKnown and brandsKnown say whether every listed id exists (true when none is listed). */
  datatype NewUser = NewUser(email: string, password: string, isActive: Option<bool>, rolesKnown: bool, brandsKnown: bool)

  datatype UserChange = UserChange(
    email: Option<string>,
    isActive: Option<bool>,
    password: Option<string>,
    rolesKnown: bool,
    brandsKnown: bool)

  datatype Request =
    | Login(email: string, password: string)
    | Refresh(refreshToken: RefreshToken)
    | Authorize(token: AccessToken)
    | Logout(token: AccessToken)
    | LogoutAllSessions(token: AccessToken)
    | RevokeSession(token: AccessToken, sessionId: SessionId)
    | ForgotPassword(email: string)
    | ResetPassword(raw: nat, newPassword: string)
    | VerifyEmail(raw: nat)
    | ResendVerification(token: AccessToken)
    | UpdateProfile(token: AccessToken, change: ProfileChange)
    | CreateUser(token: AccessToken, newUser: NewUser)
    | UpdateUser(token: AccessToken, id: UserId, userChange: UserChange)
    | RemoveUser(token: AccessToken, id: UserId)
    | CleanupSessions
    | CleanupTokens
    | Idle

  datatype Event = Event(elapsed: nat, request: Request)

  // ------------------------------------------------------------------ lookups

  predicate Truthy(o: Option<string>) { o.Some? && o.value != "" }

  predicate LiveUser(s: State, id: UserId) {
    id in s.users && s.users[id].deletedAt.None?
  }

  predicate ActiveUser(s: State, id: UserId) {
    LiveUser(s, id) && s.users[id].isActive
  }

  predicate HasEmail(users: map<UserId, User>, id: UserId, email: string) {
    id in users && users[id].deletedAt.None? && users[id].email == email
  }

  /** findOne by e-mail sees undeleted rows only. */
  ghost function FindByEmail(users: map<UserId, User>, email: string): (r: Option<UserId>)
    ensures r.Some? ==> HasEmail(users, r.value, email)
    ensures r.None? ==> forall id :: !HasEmail(users, id, email)
  {
    if id :| HasEmail(users, id, email) then Some(id) else None
  }

  predicate Unrevoked(row: Session) { row.revokedAt.None? }

  predicate Expired(row: Session, now: Time) { row.expiresAt.Some? && row.expiresAt.value <= now }

  predicate Matching(tokens: map<nat, ActionToken>, id: nat, hash: TokenHash, purpose: Purpose) {
    id in tokens && tokens[id].tokenHash == hash && tokens[id].purpose == purpose && tokens[id].consumedAt.None?
  }

  ghost function FindActiveByHash(tokens: map<nat, ActionToken>, hash: TokenHash, purpose: Purpose): (r: Option<nat>)
    ensures r.Some? ==> Matching(tokens, r.value, hash, purpose)
    ensures r.None? ==> forall id :: !Matching(tokens, id, hash, purpose)
  {
    if id :| Matching(tokens, id, hash, purpose) then Some(id) else None
  }

  // ------------------------------------------------------------------ table changes

  function Tick(s: State, elapsed: nat): State { s.(now := s.now + elapsed) }

  function SaveUser(s: State, id: UserId, user: User): State { s.(users := s.users[id := user]) }

  function WithRows(s: State, rows: map<SessionId, Session>): State { s.(store := s.store.(rows := rows)) }

  function Revoked(row: Session, now: Time, reason: Reason): Session {
    row.(revokedAt := Some(now), revokedReason := Some(reason))
  }

  /** UserSessionRepository.revokeSession. */
  function RevokeRow(rows: map<SessionId, Session>, id: SessionId, now: Time, reason: Reason): map<SessionId, Session> {
    if id in rows && Unrevoked(rows[id]) then rows[id := Revoked(rows[id], now, reason)] else rows
  }

  /** UserSessionRepository.revokeAllForUser: one UPDATE that also writes compromised_at. */
  function RevokeRows(rows: map<SessionId, Session>, uid: UserId, now: Time, reason: Reason,
                      except: Option<SessionId>, compromisedAt: Option<Time>): map<SessionId, Session> {
    map id | id in rows ::
      if rows[id].userId == uid && Unrevoked(rows[id]) && except != Some(id)
      then Revoked(rows[id], now, reason).(compromisedAt := compromisedAt)
      else rows[id]
  }

  /** UsersService.revokeAllUserSessions: the same UPDATE without the compromised_at column. */
  function RevokeUserRows(rows: map<SessionId, Session>, uid: UserId, now: Time, reason: Reason): map<SessionId, Session> {
    map id | id in rows ::
      if rows[id].userId == uid && Unrevoked(rows[id]) then Revoked(rows[id], now, reason) else rows[id]
  }

  /** AuthActionTokenRepository.invalidateOutstanding. */
  function ConsumeOutstanding(rows: map<nat, ActionToken>, uid: UserId, purpose: Purpose, now: Time): map<nat, ActionToken> {
    map id | id in rows ::
      if rows[id].userId == uid && rows[id].purpose == purpose && rows[id].consumedAt.None?
      then rows[id].(consumedAt := Some(now))
      else rows[id]
  }

  function RevokeOne(s: State, id: SessionId, reason: Reason): State {
    WithRows(s, RevokeRow(s.store.rows, id, s.now, reason))
  }

  function RevokeAllForUser(s: State, uid: UserId, reason: Reason, except: Option<SessionId>, compromisedAt: Option<Time>): State {
    WithRows(s, RevokeRows(s.store.rows, uid, s.now, reason, except, compromisedAt))
  }

  function RevokeAllUserSessions(s: State, uid: UserId, reason: Reason): State {
    WithRows(s, RevokeUserRows(s.store.rows, uid, s.now, reason))
  }

  function TokenLifetimeMs(cfg: Config, purpose: Purpose): nat {
    if purpose == PasswordReset then cfg.resetMinutes * 60000 else cfg.verificationHours * 3600000
  }

  /** createToken: outstanding tokens of the purpose are consumed first; the new row's id and raw
   *  token are both the next fresh number. */
  function CreateToken(cfg: Config, s: State, uid: UserId, email: string, purpose: Purpose): State {
    s.(next := s.next + 1,
       actionTokens := ConsumeOutstanding(s.actionTokens, uid, purpose, s.now)[s.next :=
         ActionToken(uid, purpose, Sha256(s.next), email, s.now + TokenLifetimeMs(cfg, purpose), None, s.now)])
  }

  /** consumeToken: the row it accepts, or None. */
  ghost function ConsumableToken(s: State, raw: nat, purpose: Purpose): (r: Option<nat>)
    ensures r.Some? ==> Matching(s.actionTokens, r.value, Sha256(raw), purpose)
  {
    var found := FindActiveByHash(s.actionTokens, Sha256(raw), purpose);
    if found.None? || s.actionTokens[found.value].expiresAt <= s.now then None else found
  }

  function ConsumeRow(s: State, id: nat): State
    requires id in s.actionTokens
  {
    s.(actionTokens := s.actionTokens[id := s.actionTokens[id].(consumedAt := Some(s.now))])
  }

  // ------------------------------------------------------------------ sessions

  function MintRefresh(cfg: Config, s: State, uid: UserId, sid: SessionId, version: nat): RefreshToken
    requires uid in s.users
  {
    RefreshToken(uid, s.users[uid].email, sid, version, s.now / 1000 + cfg.refreshLifetimeSeconds, s.next)
  }

  function MintAccess(cfg: Config, s: State, uid: UserId, sid: SessionId): AccessToken
    requires uid in s.users
  {
    AccessToken(uid, s.users[uid].email, sid, s.now / 1000 + cfg.accessLifetimeSeconds, s.next)
  }

  /** createLoginSession. */
  function OpenSession(cfg: Config, s: State, uid: UserId): (State, Outcome)
    requires uid in s.users
  {
    var sid := s.next;
    var refresh := MintRefresh(cfg, s, uid, sid, 1);
    var access := MintAccess(cfg, s, uid, sid);
    var row := Session(uid, Digest(Jwt(refresh), s.next), 1, s.now, s.now, s.now,
                       Some(s.now + cfg.sessionLifetimeMs), None, None, None);
    var store := SessionStore(s.store.rows[sid := row], s.store.touched,
                              s.store.refreshMinted + {refresh}, s.store.accessMinted + {access},
                              s.store.openedWith[sid := s.users[uid].passwordHash]);
    (s.(next := s.next + 1, store := store), Issued(access, refresh))
  }

  /** The part of refresh after every check has passed. */
  function Rotate(cfg: Config, s: State, sid: SessionId, uid: UserId): (State, Outcome)
    requires sid in s.store.rows && uid in s.users
  {
    var row := s.store.rows[sid];
    var version := row.tokenVersion + 1;
    var refresh := MintRefresh(cfg, s, uid, sid, version);
    var access := MintAccess(cfg, s, uid, sid);
    var rotated := row.(tokenVersion := version, lastActiveAt := s.now, lastRefreshedAt := s.now,
                        expiresAt := Some(s.now + cfg.sessionLifetimeMs),
                        refreshTokenHash := Digest(Jwt(refresh), s.next));
    var store := SessionStore(s.store.rows[sid := rotated], s.store.touched,
                              s.store.refreshMinted + {refresh}, s.store.accessMinted + {access},
                              s.store.openedWith);
    (s.(next := s.next + 1, store := store), Issued(access, refresh))
  }

  predicate VerifiesRefresh(s: State, token: RefreshToken) {
    token in s.store.refreshMinted && s.now / 1000 < token.expSeconds
  }

  function DoRefresh(cfg: Config, s: State, token: RefreshToken): (State, Outcome) {
    if !VerifiesRefresh(s, token) then (s, Failed(InvalidRefreshToken))
    else if token.sessionId !in s.store.rows || s.store.rows[token.sessionId].userId != token.userId then
      (s, Failed(InvalidRefreshToken))
    else
      var row := s.store.rows[token.sessionId];
      if !Unrevoked(row) || Expired(row, s.now) then (s, Failed(SessionNotActive))
      else if token.tokenVersion != row.tokenVersion then
        (RevokeAllForUser(s, token.userId, TokenReuse, None, Some(s.now)), Failed(RefreshTokenReuse))
      else if !cfg.compare(Jwt(token), row.refreshTokenHash) then
        (RevokeAllForUser(s, token.userId, TokenReuse, None, Some(s.now)), Failed(InvalidRefreshToken))
      else if !ActiveUser(s, token.userId) then
        (s, Failed(AccountInactive))
      else Rotate(cfg, s, token.sessionId, token.userId)
  }

  predicate VerifiesAccess(s: State, token: AccessToken) {
    token in s.store.accessMinted && s.now / 1000 < token.expSeconds
  }

  predicate TouchCached(s: State, sid: SessionId) { sid in s.store.touched && s.now < s.store.touched[sid] }

  function Touch(cfg: Config, s: State, sid: SessionId): State {
    if TouchCached(s, sid) then s
    else
      var rows := if sid in s.store.rows && Unrevoked(s.store.rows[sid])
                  then s.store.rows[sid := s.store.rows[sid].(lastActiveAt := s.now)]
                  else s.store.rows;
      s.(store := s.store.(rows := rows, touched := s.store.touched[sid := s.now + WindowMs(cfg)]))
  }

  /** The JWT check of the guard, then authorizeRequestUser up to its touch. */
  predicate Admits(s: State, token: AccessToken) {
    && VerifiesAccess(s, token)
    && token.sessionId in s.store.rows
    && var row := s.store.rows[token.sessionId];
       Unrevoked(row) && row.userId == token.userId && !Expired(row, s.now)
  }

  // ------------------------------------------------------------------ request handlers

  function FailedLogin(cfg: Config, s: State, uid: UserId): State
    requires uid in s.users
  {
    var user := s.users[uid];
    var count := user.failedLoginCount + 1;
    SaveUser(s, uid, user.(failedLoginCount := count,
                           lastFailedLoginAt := Some(s.now),
                           lockedUntil := if count >= cfg.maxFailedLogins then Some(s.now + LockMs(cfg)) else user.lockedUntil))
  }

  predicate Locked(user: User, now: Time) { user.lockedUntil.Some? && now < user.lockedUntil.value }

  function ClearFailures(user: User): User {
    user.(failedLoginCount := 0, lastFailedLoginAt := None, lockedUntil := None)
  }

  ghost function DoLogin(cfg: Config, s: State, email: string, password: string): (State, Outcome) {
    match FindByEmail(s.users, Normalize(email))
    case None => (s, Failed(InvalidCredentials))
    case Some(uid) =>
      var user := s.users[uid];
      if user.passwordHash.None? then (s, Failed(InvalidCredentials))
      else if !user.isActive then (s, Failed(AccountInactive))
      else if Locked(user, s.now) then (s, Failed(AccountLocked))
      else if !cfg.compare(Password(password), user.passwordHash.value) then
        (FailedLogin(cfg, s, uid), Failed(InvalidCredentials))
      else OpenSession(cfg, SaveUser(s, uid, ClearFailures(user).(lastLoginAt := Some(s.now))), uid)
  }

  ghost function DoForgotPassword(cfg: Config, s: State, email: string): (State, Outcome) {
    match FindByEmail(s.users, Normalize(email))
    case None => (s, Done)
    case Some(uid) => (CreateToken(cfg, s, uid, s.users[uid].email, PasswordReset), Done)
  }

  ghost function DoResetPassword(s: State, raw: nat, newPassword: string): (State, Outcome) {
    match ConsumableToken(s, raw, PasswordReset)
    case None => (s, Failed(InvalidActionToken))
    case Some(id) =>
      var uid := s.actionTokens[id].userId;
      var s1 := ConsumeRow(s, id);
      if !LiveUser(s1, uid) then (s1, Failed(NotFound))
      else
        var user := ClearFailures(s1.users[uid]).(passwordHash := Some(Digest(Password(newPassword), s.next)),
                                                  passwordChangedAt := Some(s.now));
        var s2 := SaveUser(s1, uid, user).(next := s.next + 1, setter := s.setter - {uid});
        (RevokeAllForUser(s2, uid, LogoutAll, None, None), Done)
  }

  ghost function DoVerifyEmail(s: State, raw: nat): (State, Outcome) {
    match ConsumableToken(s, raw, EmailVerification)
    case None => (s, Failed(InvalidActionToken))
    case Some(id) =>
      var uid := s.actionTokens[id].userId;
      var s1 := ConsumeRow(s, id);
      if !LiveUser(s1, uid) then (s1, Failed(NotFound))
      else (SaveUser(s1, uid, s1.users[uid].(emailVerifiedAt := Some(s.now))), Done)
  }

  function DoResendVerification(cfg: Config, s: State, uid: UserId): (State, Outcome) {
    if !LiveUser(s, uid) then (s, Failed(NotFound))
    else if s.users[uid].emailVerifiedAt.Some? then (s, Done)
    else
      var s1 := CreateToken(cfg, s, uid, s.users[uid].email, EmailVerification);
      (SaveUser(s1, uid, s.users[uid].(verificationEmailSentAt := Some(s.now))), Done)
  }

  predicate ChangesPassword(change: ProfileChange) {
    Truthy(change.currentPassword) && Truthy(change.newPassword)
  }

  /** The password part of updateProfile: other sessions are revoked at once, but the new digest
   *  exists only in the loaded row, which is saved at the end if nothing throws before. */
  function ProfilePassword(cfg: Config, s: State, token: AccessToken, change: ProfileChange): (State, Option<User>)
    requires token.userId in s.users
  {
    var user := s.users[token.userId];
    if ChangesPassword(change) then
      if user.passwordHash.None? || !cfg.compare(Password(change.currentPassword.value), user.passwordHash.value)
      then (s, None)
      else (RevokeAllForUser(s, token.userId, PasswordChanged, Some(token.sessionId), None).(next := s.next + 1),
            Some(user.(passwordHash := Some(Digest(Password(change.newPassword.value), s.next)),
                       passwordChangedAt := Some(s.now))))
    else (s, Some(user))
  }

  ghost predicate EmailTaken(s: State, uid: UserId, email: string) {
    var existing := FindByEmail(s.users, email);
    existing.Some? && existing.value != uid
  }

  /** The e-mail part of updateProfile, on the row as the password part left it. */
  ghost function ProfileEmail(cfg: Config, s: State, uid: UserId, user: User, email: Option<string>): (State, Option<User>) {
    if Truthy(email) && email.value != user.email then
      if EmailTaken(s, uid, Lower(email.value)) then (s, None)
      else (CreateToken(cfg, s, uid, Lower(email.value), EmailVerification),
            Some(user.(email := Lower(email.value), emailVerifiedAt := None, verificationEmailSentAt := Some(s.now))))
    else (s, Some(user))
  }

  ghost function DoUpdateProfile(cfg: Config, s: State, token: AccessToken, change: ProfileChange): (State, Outcome) {
    var uid := token.userId;
    if !LiveUser(s, uid) then (s, Failed(NotFound))
    else if Truthy(change.newPassword) && !Truthy(change.currentPassword) then (s, Failed(BadRequest))
    else
      var (s1, user1) := ProfilePassword(cfg, s, token, change);
      if user1.None? then (s1, Failed(Forbidden))
      else
        var (s2, user2) := ProfileEmail(cfg, s1, uid, user1.value, change.email);
        if user2.None? then (s2, Failed(Conflict))
        else if change.avatar.AvatarRejected? then (s2, Failed(BadRequest))
        else
          var user3 := if change.avatar.AvatarKey? then user2.value.(avatarKey := change.avatar.key) else user2.value;
          var s3 := SaveUser(s2, uid, user3);
          (if ChangesPassword(change) then s3.(setter := s3.setter[uid := token.sessionId]) else s3, Done)
  }

  ghost function DoCreateUser(s: State, newUser: NewUser): (State, Outcome) {
    var email := Normalize(newUser.email);
    if FindByEmail(s.users, email).Some? then (s, Failed(Conflict))
    else if !newUser.rolesKnown || !newUser.brandsKnown then (s, Failed(BadRequest))
    else
      var active := if newUser.isActive.Some? then newUser.isActive.value else true;
      var user := User(email, Some(Digest(Password(newUser.password), s.next)), active, None, 0, None, None, None,
                       Some(s.now), None, None, None);
      (SaveUser(s, s.next, user).(next := s.next + 1), Done)
  }

  function DropTokensOf(s: State, uid: UserId): State {
    s.(actionTokens := map id | id in s.actionTokens && s.actionTokens[id].userId != uid :: s.actionTokens[id])
  }

  predicate Renames(user: User, change: UserChange) {
    Truthy(change.email) && Normalize(change.email.value) != user.email
  }

  /** The fields UsersService.update assigns on the loaded row. */
  function EditedUser(user: User, change: UserChange, now: Time, salt: nat): User {
    var user1 := if Renames(user, change)
                 then user.(email := Normalize(change.email.value), emailVerifiedAt := None, verificationEmailSentAt := None)
                 else user;
    var user2 := if change.isActive.Some? then user1.(isActive := change.isActive.value) else user1;
    if change.password.Some?
    then user2.(passwordHash := Some(Digest(Password(change.password.value), salt)), passwordChangedAt := Some(now))
    else user2
  }

  /** The revocations UsersService.update makes on the way. */
  function RevokedByUpdate(rows: map<SessionId, Session>, id: UserId, change: UserChange, now: Time): map<SessionId, Session> {
    var rows1 := if change.isActive == Some(false) then RevokeUserRows(rows, id, now, UserDeactivated) else rows;
    if change.password.Some? then RevokeUserRows(rows1, id, now, PasswordChangedByAdmin) else rows1
  }

  /** UsersService.update: deleting tokens and revoking sessions happen at once, the row is saved last. */
  ghost function DoUpdateUser(s: State, id: UserId, change: UserChange): (State, Outcome) {
    if !LiveUser(s, id) then (s, Failed(NotFound))
    else
      var user := s.users[id];
      if Renames(user, change) && EmailTaken(s, id, Normalize(change.email.value)) then (s, Failed(Conflict))
      else
        var s1 := if Renames(user, change) then DropTokensOf(s, id) else s;
        var s2 := WithRows(s1, RevokedByUpdate(s.store.rows, id, change, s.now)).(next := s.next + 1);
        if !change.rolesKnown || !change.brandsKnown then (s2, Failed(BadRequest))
        else
          var s3 := SaveUser(s2, id, EditedUser(user, change, s.now, s.next));
          (if change.password.Some? then s3.(setter := s3.setter - {id}) else s3, Done)
  }

  function DoRemoveUser(s: State, token: AccessToken, id: UserId): (State, Outcome) {
    if id == token.userId then (s, Failed(Forbidden))
    else if !LiveUser(s, id) then (s, Failed(NotFound))
    else
      var s1 := RevokeAllUserSessions(s, id, UserDeleted);
      (SaveUser(s1, id, s.users[id].(isActive := false, deletedAt := Some(s.now))), Done)
  }

  function DropDeadSessions(s: State): State {
    WithRows(s, map id | id in s.store.rows && !Collectable(s.store.rows[id], s.now) :: s.store.rows[id])
  }

  predicate Collectable(row: Session, now: Time) {
    || (row.revokedAt.Some? && row.revokedAt.value < now)
    || (row.expiresAt.Some? && row.expiresAt.value < now)
  }

  function DropDeadTokens(s: State): State {
    s.(actionTokens := map id | id in s.actionTokens && !CollectableToken(s.actionTokens[id], s.now) :: s.actionTokens[id])
  }

  predicate CollectableToken(row: ActionToken, now: Time) {
    row.expiresAt < now || (row.consumedAt.Some? && row.consumedAt.value < now)
  }

  // ------------------------------------------------------------------ steps and runs

  predicate Guarded(r: Request) {
    || r.Authorize? || r.Logout? || r.LogoutAllSessions? || r.RevokeSession? || r.ResendVerification?
    || r.UpdateProfile? || r.CreateUser? || r.UpdateUser? || r.RemoveUser?
  }

  function TokenOf(r: Request): AccessToken
    requires Guarded(r)
  {
    r.token
  }

  /** A request behind the access-token guard, after the guard has admitted and touched its session. */
  ghost function Handle(cfg: Config, s: State, r: Request): (State, Outcome)
    requires Guarded(r)
  {
    match r
    case Authorize(token) => (s, Done)
    case Logout(token) => (RevokeOne(s, token.sessionId, LogoutCurrent), Done)
    case LogoutAllSessions(token) => (RevokeAllForUser(s, token.userId, LogoutAll, None, None), Done)
    case RevokeSession(token, sid) =>
      if sid !in s.store.rows || s.store.rows[sid].userId != token.userId then (s, Failed(NotFound))
      else (RevokeOne(s, sid, ManualRevoke), Done)
    case ResendVerification(token) => DoResendVerification(cfg, s, token.userId)
    case UpdateProfile(token, change) => DoUpdateProfile(cfg, s, token, change)
    case CreateUser(token, newUser) => DoCreateUser(s, newUser)
    case UpdateUser(token, id, change) => DoUpdateUser(s, id, change)
    case RemoveUser(token, id) => DoRemoveUser(s, token, id)
  }

  ghost function Serve(cfg: Config, s: State, r: Request): (State, Outcome) {
    if Guarded(r) then
      if Admits(s, TokenOf(r)) then Handle(cfg, Touch(cfg, s, TokenOf(r).sessionId), r)
      else (s, Failed(SessionNotActive))
    else match r
      case Login(email, password) => DoLogin(cfg, s, email, password)
      case Refresh(token) => DoRefresh(cfg, s, token)
      case ForgotPassword(email) => DoForgotPassword(cfg, s, email)
      case ResetPassword(raw, newPassword) => DoResetPassword(s, raw, newPassword)
      case VerifyEmail(raw) => DoVerifyEmail(s, raw)
      case CleanupSessions => (DropDeadSessions(s), Done)
      case CleanupTokens => (DropDeadTokens(s), Done)
      case Idle => (s, Done)
  }

  ghost function Step(cfg: Config, s: State, e: Event): (State, Outcome) {
    Serve(cfg, Tick(s, e.elapsed), e.request)
  }

  /** The state that a sequence of events leads to. */
  ghost function After(cfg: Config, s: State, es: seq<Event>): State {
    if es == [] then s else Step(cfg, After(cfg, s, es[..|es| - 1]), es[|es| - 1]).0
  }

  lemma AfterSnoc(cfg: Config, s: State, es: seq<Event>, i: nat)
    requires i < |es|
    ensures After(cfg, s, es[..i + 1]) == Step(cfg, After(cfg, s, es[..i]), es[i]).0
  {
    assert es[..i + 1][..i] == es[..i];
  }

  /** Where runs begin: any user table with distinct live addresses, and nothing issued yet. */
  ghost predicate Initial(s: State) {
    && s.store == SessionStore(map[], map[], {}, {}, map[]) && s.actionTokens == map[] && s.setter == map[]
    && DistinctEmails(s.users)
    && forall id | id in s.users :: id < s.next
  }

  ghost predicate DistinctEmails(users: map<UserId, User>) {
    forall a, b | a in users && b in users && users[a].deletedAt.None? && users[b].deletedAt.None? && users[a].email == users[b].email :: a == b
  }

  /** A run with every state it passes and every answer it gives. */
  datatype Run = Run(states: seq<State>, events: seq<Event>, outcomes: seq<Outcome>)

  ghost predicate StepsAt(cfg: Config, run: Run, k: nat)
    requires |run.outcomes| == |run.events| && |run.states| == |run.events| + 1 && k < |run.events|
  {
    Step(cfg, run.states[k], run.events[k]) == (run.states[k + 1], run.outcomes[k])
  }

  ghost predicate IsRun(cfg: Config, run: Run) {
    && |run.outcomes| == |run.events| && |run.states| == |run.events| + 1
    && Initial(run.states[0])
    && forall k: nat | k < |run.events| :: StepsAt(cfg, run, k)
  }

  /** The k-th state is where the first k events lead. */
  lemma {:induction false} RunState(cfg: Config, run: Run, k: nat)
    requires IsRun(cfg, run) && k <= |run.events|
    ensures run.states[k] == After(cfg, run.states[0], run.events[..k])
    decreases k
  {
    hide Step, Initial;
    if k > 0 {
      RunState(cfg, run, k - 1);
      assert StepsAt(cfg, run, k - 1);
      AfterSnoc(cfg, run.states[0], run.events, k - 1);
    }
  }

  lemma RunStep(cfg: Config, run: Run, k: nat)
    requires IsRun(cfg, run) && k < |run.events|
    ensures Step(cfg, run.states[k], run.events[k]) == (run.states[k + 1], run.outcomes[k])
  {
    hide Step, Initial;
    assert StepsAt(cfg, run, k);
  }
}
