/** Which address a verification token vouches for.  verifyEmail marks whatever address the user row
 *  carries; these lemmas say when that is the address the token was mailed to, and when it is not. */
module AuthVerificationEmail {
  import opened Wrappers
  import opened AuthModel
  import opened AuthEvolution
  import opened AuthActionTokens
  import opened AuthEmails

  /** Every outstanding verification token carries its user's current address. */
  ghost predicate AddressesMatch(users: map<UserId, User>, rows: TokenTable) {
    forall id | id in rows && rows[id].purpose == EmailVerification && rows[id].consumedAt.None? ::
      rows[id].userId in users && rows[id].email == users[rows[id].userId].email
  }

  ghost predicate Matched(s: State) {
    AddressesMatch(s.users, s.actionTokens) && forall id | id in s.users :: id < s.next
  }

  /** A profile change that gets past its password part and its uniqueness check with an address that
   *  is new also in lower case, and is then rejected for its avatar: the token for the new address
   *  has been issued, but the row is never saved. */
  ghost predicate IssuesThenFails(cfg: Config, s: State, token: AccessToken, change: ProfileChange) {
    && LiveUser(s, token.userId)
    && !(Truthy(change.newPassword) && !Truthy(change.currentPassword))
    && (ChangesPassword(change) ==>
          && s.users[token.userId].passwordHash.Some?
          && cfg.compare(Password(change.currentPassword.value), s.users[token.userId].passwordHash.value))
    && Truthy(change.email)
    && Text.Lower(change.email.value) != s.users[token.userId].email
    && change.email.value != s.users[token.userId].email
    && !EmailTaken(s, token.userId, Text.Lower(change.email.value))
    && change.avatar.AvatarRejected?
  }

  ghost predicate StepIssuesThenFails(cfg: Config, s: State, e: Event) {
    var t := Tick(s, e.elapsed);
    && e.request.UpdateProfile?
    && Admits(t, e.request.token)
    && IssuesThenFails(cfg, Touch(cfg, t, e.request.token.sessionId), e.request.token, e.request.change)
  }

  // ------------------------------------------------------------------ table facts

  lemma SameAddressMatches(users: map<UserId, User>, rows: TokenTable, uid: UserId, user: User)
    requires AddressesMatch(users, rows) && uid in users && users[uid].email == user.email
    ensures AddressesMatch(users[uid := user], rows)
  {
  }

  /** After createToken the outstanding verification tokens of the user are just the new one. */
  lemma CreatedMatches(cfg: Config, s: State, uid: UserId, email: string, purpose: Purpose, user: User)
    requires AddressesMatch(s.users, s.actionTokens) && uid in s.users
    requires purpose == EmailVerification ==> user.email == email
    requires purpose == PasswordReset ==> user.email == s.users[uid].email
    ensures AddressesMatch(s.users[uid := user], CreateToken(cfg, s, uid, email, purpose).actionTokens)
  {
  }

  lemma DroppedMatches(s: State, uid: UserId, user: User)
    requires AddressesMatch(s.users, s.actionTokens)
    ensures AddressesMatch(s.users[uid := user], DropTokensOf(s, uid).actionTokens)
    ensures AddressesMatch(s.users, DropTokensOf(s, uid).actionTokens)
    ensures AddressesMatch(s.users, DropDeadTokens(s).actionTokens)
  {
  }

  // ------------------------------------------------------------------ requests

  /** updateProfile keeps the addresses matched except in the one case. */
  lemma ProfileMatchesExactly(cfg: Config, s: State, token: AccessToken, change: ProfileChange)
    requires Matched(s)
    ensures var t := DoUpdateProfile(cfg, s, token, change).0;
            && (AddressesMatch(t.users, t.actionTokens) <==> !IssuesThenFails(cfg, s, token, change))
            && (forall id | id in t.users :: id < t.next)
  {
    hide RevokeRows, FindByEmail, Touch, CreateToken, AddressesMatch, Text.Lower;
    if LiveUser(s, token.userId) {
      var uid := token.userId;
      var (s1, user1) := ProfilePassword(cfg, s, token, change);
      assert s1.users == s.users && s1.actionTokens == s.actionTokens;
      if user1.Some? {
        SameAddressMatches(s.users, s.actionTokens, uid, user1.value);
        SameAddressMatches(s.users, s.actionTokens, uid, user1.value.(avatarKey := if change.avatar.AvatarKey? then change.avatar.key else None));
        if Truthy(change.email) && change.email.value != user1.value.email {
          var email := Text.Lower(change.email.value);
          var user2 := user1.value.(email := email, emailVerifiedAt := None, verificationEmailSentAt := Some(s1.now));
          CreateFrame(cfg, s1, uid, email, EmailVerification);
          CreatedMatches(cfg, s1, uid, email, EmailVerification, user2);
          CreatedMatches(cfg, s1, uid, email, EmailVerification, user2.(avatarKey := if change.avatar.AvatarKey? then change.avatar.key else None));
          UnsavedMatches(cfg, s1, uid, email);
        }
      }
    }
  }

  /** A token created for an address that is then not saved matches only if the address was the old one. */
  lemma UnsavedMatches(cfg: Config, s: State, uid: UserId, email: string)
    requires AddressesMatch(s.users, s.actionTokens) && uid in s.users
    ensures AddressesMatch(s.users, CreateToken(cfg, s, uid, email, EmailVerification).actionTokens)
            <==> s.users[uid].email == email
  {
    var rows := CreateToken(cfg, s, uid, email, EmailVerification).actionTokens;
    assert s.next in rows && rows[s.next].email == email && rows[s.next].userId == uid;
  }

  lemma UpdateUserMatches(s: State, id: UserId, change: UserChange)
    requires Matched(s)
    ensures Matched(DoUpdateUser(s, id, change).0)
  {
    hide RevokedByUpdate, DropTokensOf, AddressesMatch, Text.Normalize;
    DropFrame(s, id);
    if LiveUser(s, id) {
      var edited := EditedUser(s.users[id], change, s.now, s.next);
      DroppedMatches(s, id, edited);
      if !Renames(s.users[id], change) {
        SameAddressMatches(s.users, s.actionTokens, id, edited);
      }
    }
  }

  lemma HandleMatchesExactly(cfg: Config, s: State, r: Request)
    requires Guarded(r) && Matched(s)
    ensures Matched(Handle(cfg, s, r).0) <==> !(r.UpdateProfile? && IssuesThenFails(cfg, s, r.token, r.change))
  {
    hide RevokeRow, RevokeRows, RevokeUserRows, CreateToken, DoUpdateProfile, DoUpdateUser, AddressesMatch,
      IssuesThenFails, Text.Normalize;
    match r
    case UpdateProfile(token, change) => ProfileMatchesExactly(cfg, s, token, change);
    case UpdateUser(token, id, change) => UpdateUserMatches(s, id, change);
    case ResendVerification(token) =>
      if LiveUser(s, token.userId) {
        var user := s.users[token.userId];
        CreateFrame(cfg, s, token.userId, user.email, EmailVerification);
        CreatedMatches(cfg, s, token.userId, user.email, EmailVerification, user.(verificationEmailSentAt := Some(s.now)));
      }
    case CreateUser(token, newUser) => CreateUserMatches(s, newUser);
    case RemoveUser(token, id) =>
      if LiveUser(s, id) {
        SameAddressMatches(s.users, s.actionTokens, id, s.users[id].(isActive := false, deletedAt := Some(s.now)));
      }
    case _ =>
  }

  lemma CreateUserMatches(s: State, newUser: NewUser)
    requires Matched(s)
    ensures Matched(DoCreateUser(s, newUser).0)
  {
    hide Text.Normalize;
  }

  lemma PublicMatches(cfg: Config, s: State, r: Request)
    requires !Guarded(r) && Matched(s)
    ensures Matched(Serve(cfg, s, r).0)
  {
    hide DoLogin, DoRefresh, DoForgotPassword, DoResetPassword, DoVerifyEmail, DropDeadTokens, DropDeadSessions, AddressesMatch;
    match r
    case Login(email, password) => LoginMatches(cfg, s, email, password);
    case Refresh(token) => RefreshFrame(cfg, s, token);
    case ForgotPassword(email) => ForgotMatches(cfg, s, email);
    case ResetPassword(raw, newPassword) => ResetMatches(s, raw, newPassword);
    case VerifyEmail(raw) => VerifyMatches(s, raw);
    case CleanupSessions => CleanupMatches(s);
    case CleanupTokens => CleanupMatches(s);
    case Idle =>
  }

  lemma CleanupMatches(s: State)
    requires Matched(s)
    ensures Matched(DropDeadSessions(s)) && Matched(DropDeadTokens(s))
  {
  }

  lemma LoginMatches(cfg: Config, s: State, email: string, password: string)
    requires Matched(s)
    ensures Matched(DoLogin(cfg, s, email, password).0)
  {
    hide Text.Normalize, AddressesMatch;
    match FindByEmail(s.users, Text.Normalize(email))
    case None =>
    case Some(uid) =>
      SameAddressMatches(s.users, s.actionTokens, uid, FailedLogin(cfg, s, uid).users[uid]);
      SameAddressMatches(s.users, s.actionTokens, uid, ClearFailures(s.users[uid]).(lastLoginAt := Some(s.now)));
  }

  lemma ForgotMatches(cfg: Config, s: State, email: string)
    requires Matched(s)
    ensures Matched(DoForgotPassword(cfg, s, email).0)
  {
    hide Text.Normalize, AddressesMatch, CreateToken;
    match FindByEmail(s.users, Text.Normalize(email))
    case None =>
    case Some(uid) =>
      CreateFrame(cfg, s, uid, s.users[uid].email, PasswordReset);
      CreatedMatches(cfg, s, uid, s.users[uid].email, PasswordReset, s.users[uid]);
      assert s.users[uid := s.users[uid]] == s.users;
  }

  lemma ResetMatches(s: State, raw: nat, newPassword: string)
    requires Matched(s)
    ensures Matched(DoResetPassword(s, raw, newPassword).0)
  {
    hide RevokeRows;
  }

  lemma VerifyMatches(s: State, raw: nat)
    requires Matched(s)
    ensures Matched(DoVerifyEmail(s, raw).0)
  {
  }

  // ------------------------------------------------------------------ main results

  /** One step from matched addresses ends in matched addresses exactly when it is not a profile change
   *  that issues a token for a new address and is then rejected for its avatar. */
  lemma StepMatchesExactly(cfg: Config, s: State, e: Event)
    requires Matched(s)
    ensures Matched(Step(cfg, s, e).0) <==> !StepIssuesThenFails(cfg, s, e)
  {
    hide AddressesMatch, IssuesThenFails, Handle, Touch, Admits, DoLogin, DoRefresh, DoForgotPassword, DoResetPassword,
      DoVerifyEmail, DropDeadTokens, DropDeadSessions;
    var t, r := Tick(s, e.elapsed), e.request;
    if Guarded(r) {
      if Admits(t, TokenOf(r)) {
        TouchFrame(cfg, t, TokenOf(r).sessionId);
        HandleMatchesExactly(cfg, Touch(cfg, t, TokenOf(r).sessionId), r);
      }
    } else {
      PublicMatches(cfg, t, r);
    }
  }

  ghost predicate NoFailedIssue(cfg: Config, s: State, es: seq<Event>) {
    forall k | 0 <= k < |es| :: !StepIssuesThenFails(cfg, After(cfg, s, es[..k]), es[k])
  }

  lemma {:induction false} RunMatches(cfg: Config, s: State, es: seq<Event>)
    requires Initial(s) && NoFailedIssue(cfg, s, es)
    ensures Matched(After(cfg, s, es))
  {
    hide Step, StepIssuesThenFails;
    if es != [] {
      hide Matched;
      var front := es[..|es| - 1];
      assert forall k | 0 <= k < |front| :: front[k] == es[k] && front[..k] == es[..k];
      RunMatches(cfg, s, front);
      StepMatchesExactly(cfg, After(cfg, s, front), es[|es| - 1]);
    }
  }

  /** The event verifies an address by the token in row id, and succeeds. */
  ghost predicate VerifiesRow(s: State, e: Event, outcome: Outcome, id: nat) {
    && e.request.VerifyEmail? && outcome == Done
    && id in s.actionTokens && ConsumableToken(Tick(s, e.elapsed), e.request.raw, EmailVerification) == Some(id)
  }

  /** If no profile change of the run issued a token and then failed, a verification that succeeds marks
   *  as verified exactly the address its token was sent to. */
  lemma VerifiesAddressSentTo(cfg: Config, run: Run, k: nat, id: nat)
    requires IsRun(cfg, run) && k < |run.events|
    requires forall i: nat | i < k :: !StepIssuesThenFails(cfg, run.states[i], run.events[i])
    requires VerifiesRow(run.states[k], run.events[k], run.outcomes[k], id)
    ensures id in run.states[k].actionTokens
    ensures var (sent, t) := (run.states[k].actionTokens[id], run.states[k + 1]);
            && sent.userId in t.users && t.users[sent.userId].emailVerifiedAt == Some(t.now)
            && t.users[sent.userId].email == sent.email
  {
    hide Step, Matched, StepIssuesThenFails, Initial;
    RunState(cfg, run, k);
    forall i: nat | i < k
      ensures !StepIssuesThenFails(cfg, After(cfg, run.states[0], run.events[..k][..i]), run.events[..k][i])
    {
      RunState(cfg, run, i);
      assert run.events[..k][..i] == run.events[..i];
    }
    RunMatches(cfg, run.states[0], run.events[..k]);
    RunStep(cfg, run, k);
    MatchedVerification(cfg, run.states[k], run.events[k], id);
  }

  lemma MatchedVerification(cfg: Config, s: State, e: Event, id: nat)
    requires Matched(s) && VerifiesRow(s, e, Step(cfg, s, e).1, id)
    ensures var (sent, t) := (s.actionTokens[id], Step(cfg, s, e).0);
            && sent.userId in t.users && t.users[sent.userId].emailVerifiedAt == Some(t.now)
            && t.users[sent.userId].email == sent.email
  {
  }

  /** The number that a profile change gives the token it issues. */
  function IssuedRaw(s: State, change: ProfileChange): nat { if ChangesPassword(change) then s.next + 1 else s.next }

  /** The failing family: after such a profile change, presenting the token it issued while it lasts
   *  verifies the old address, although the token was sent to another one. */
  lemma WrongAddressVerified(cfg: Config, s: State, token: AccessToken, change: ProfileChange, elapsed: nat)
    requires IssuesThenFails(cfg, s, token, change) && OneOutstanding(s.actionTokens, s.next)
    requires elapsed < cfg.verificationHours * 3600000
    ensures var (s1, answer) := DoUpdateProfile(cfg, s, token, change);
            var raw := IssuedRaw(s, change);
            var (t, outcome) := DoVerifyEmail(Tick(s1, elapsed), raw);
            && answer == Failed(BadRequest) && outcome == Done
            && token.userId in t.users && t.users[token.userId].emailVerifiedAt == Some(s.now + elapsed)
            && t.users[token.userId].email == s.users[token.userId].email
            && raw in s1.actionTokens && raw in t.actionTokens && t.actionTokens[raw].email == s1.actionTokens[raw].email
            && s1.actionTokens[raw].email == Text.Lower(change.email.value) != s.users[token.userId].email
  {
    hide Text.Lower, OneOutstanding, ConsumeOutstanding, RevokeRows, IssuesThenFails;
    ProfileIssues(cfg, s, token, change);
    var email := Text.Lower(change.email.value);
    var s0 := ProfilePassword(cfg, s, token, change).0;
    var s1 := CreateToken(cfg, s0, token.userId, email, EmailVerification);
    if ChangesPassword(change) {
      LaterOneOutstanding(s.actionTokens, s.next);
    }
    CreateAdvances(cfg, s0, token.userId, email, EmailVerification);
    assert Matching(s1.actionTokens, s0.next, Sha256(s0.next), EmailVerification);
    OnlyRowOfHash(s1.actionTokens, s1.next, s0.next);
  }

  /** What such a profile change does: its password part, then the token. */
  lemma ProfileIssues(cfg: Config, s: State, token: AccessToken, change: ProfileChange)
    requires IssuesThenFails(cfg, s, token, change)
    ensures Truthy(change.email) && Text.Lower(change.email.value) != s.users[token.userId].email && LiveUser(s, token.userId)
    ensures var s0 := ProfilePassword(cfg, s, token, change).0;
            && s0.users == s.users && s0.actionTokens == s.actionTokens && s0.now == s.now
            && s0.next == IssuedRaw(s, change)
            && DoUpdateProfile(cfg, s, token, change) ==
                 (CreateToken(cfg, s0, token.userId, Text.Lower(change.email.value), EmailVerification), Failed(BadRequest))
  {
    hide Text.Lower, CreateToken, RevokeRows;
    var (s0, user) := ProfilePassword(cfg, s, token, change);
    assert user.Some? && user.value.email == s.users[token.userId].email;
    assert EmailTaken(s0, token.userId, Text.Lower(change.email.value)) == EmailTaken(s, token.userId, Text.Lower(change.email.value));
  }

  lemma OnlyRowOfHash(rows: TokenTable, next: nat, raw: nat)
    requires OneOutstanding(rows, next) && raw in rows && rows[raw].consumedAt.None? && rows[raw].purpose == EmailVerification
    ensures FindActiveByHash(rows, Sha256(raw), EmailVerification) == Some(raw)
  {
    assert Matching(rows, raw, Sha256(raw), EmailVerification);
  }

  lemma TwoSteps(cfg: Config, s: State, token: AccessToken, change: ProfileChange, elapsed: nat, raw: nat, later: nat)
    requires Admits(Tick(s, elapsed), token)
    ensures var touched := Touch(cfg, Tick(s, elapsed), token.sessionId);
            var (s1, answer) := DoUpdateProfile(cfg, touched, token, change);
            && Step(cfg, s, Event(elapsed, UpdateProfile(token, change))) == (s1, answer)
            && Step(cfg, s1, Event(later, VerifyEmail(raw))) == DoVerifyEmail(Tick(s1, later), raw)
  {
    hide DoUpdateProfile, DoVerifyEmail, Touch, Admits;
  }

  /** In every run: a profile change that issues a token and then fails, followed by the verification with
   *  that token while it lasts, ends with the old address verified by a token sent to another one.  So
   *  the exception is not one of states that no run reaches. */
  lemma WrongAddressInRuns(cfg: Config, run: Run, k: nat)
    requires IsRun(cfg, run) && k + 1 < |run.events|
    requires StepIssuesThenFails(cfg, run.states[k], run.events[k]) && run.events[k].request.change.email.Some?
    requires run.events[k + 1].request == VerifyEmail(IssuedRaw(run.states[k], run.events[k].request.change))
    requires run.events[k + 1].elapsed < cfg.verificationHours * 3600000
    ensures run.outcomes[k] == Failed(BadRequest) && run.outcomes[k + 1] == Done
    ensures var (uid, raw, t) := (run.events[k].request.token.userId, IssuedRaw(run.states[k], run.events[k].request.change), run.states[k + 2]);
            && uid in t.users && uid in run.states[k].users && raw in t.actionTokens
            && t.users[uid].emailVerifiedAt == Some(t.now) && t.users[uid].email == run.states[k].users[uid].email
            && t.actionTokens[raw].email == Text.Lower(run.events[k].request.change.email.value) != t.users[uid].email
  {
    hide Step, DoUpdateProfile, DoVerifyEmail, IssuesThenFails, OneOutstanding, Initial, Admits, Text.Lower;
    var s, e, f := run.states[k], run.events[k], run.events[k + 1];
    RunState(cfg, run, k);
    RunStep(cfg, run, k);
    RunStep(cfg, run, k + 1);
    RunOneOutstanding(cfg, run.states[0], run.events[..k]);
    var token, change := e.request.token, e.request.change;
    var touched := Touch(cfg, Tick(s, e.elapsed), token.sessionId);
    TouchFrame(cfg, Tick(s, e.elapsed), token.sessionId);
    TwoSteps(cfg, s, token, change, e.elapsed, IssuedRaw(s, change), f.elapsed);
    assert e == Event(e.elapsed, UpdateProfile(token, change)) && f == Event(f.elapsed, VerifyEmail(IssuedRaw(s, change)));
    ProfileIssues(cfg, touched, token, change);
    WrongAddressVerified(cfg, touched, token, change, f.elapsed);
    VerifyKeepsUser(Tick(run.states[k + 1], f.elapsed), IssuedRaw(s, change));
    ProfileKeepsNow(cfg, touched, token, change);
  }

  lemma VerifyKeepsUser(s: State, raw: nat)
    ensures DoVerifyEmail(s, raw).0.now == s.now
  {
  }

  lemma ProfileKeepsNow(cfg: Config, s: State, token: AccessToken, change: ProfileChange)
    requires IssuesThenFails(cfg, s, token, change)
    ensures DoUpdateProfile(cfg, s, token, change).0.now == s.now
  {
    hide IssuesThenFails, DoUpdateProfile, ProfilePassword;
    ProfileIssues(cfg, s, token, change);
  }

  // ------------------------------------------------------------------ a run that comes to it

  function Registered(): User {
    User("a@x", Some(Digest(Password("p"), 0)), true, None, 0, None, None, None, None, None, None, None)
  }

  function OneUser(): State {
    State(0, 1, map[0 := Registered()], SessionStore(map[], map[], {}, {}, map[]), map[], map[])
  }

  function ToB(): ProfileChange { ProfileChange(Some("b@x"), None, None, AvatarRejected) }

  lemma LettersAreNoSpaces()
    ensures !Text.IsSpace('a') && !Text.IsSpace('x')
  {
  }

  lemma AddressesNormal()
    ensures Text.Normalize("a@x") == "a@x" && Text.Lower("b@x") == "b@x" && "a@x" != "b@x"
  {
    hide Text.Trim, Text.IsSpace;
    LettersAreNoSpaces();
    Text.TrimIsTrimmed("a@x");
    assert Text.Lower("a@x") == "a@x" && Text.Lower("b@x") == "b@x";
    assert "a@x"[0] == 'a' && "b@x"[0] == 'b';
  }

  lemma OneUserLogsIn(cfg: Config)
    requires ValidConfig(cfg)
    ensures Initial(OneUser())
    ensures Step(cfg, OneUser(), Event(0, Login("a@x", "p"))) == OpenSession(cfg, LoggedIn(OneUser(), 0), 0)
  {
    hide Text.Normalize, OpenSession;
    AddressesNormal();
    FoundIsOnly(OneUser().users, 0, "a@x");
    assert Tick(OneUser(), 0) == OneUser();
  }

  lemma OpenedAdmits(cfg: Config)
    requires 1 <= cfg.accessLifetimeSeconds && 1 <= cfg.sessionLifetimeMs
    ensures var (s, issued) := OpenSession(cfg, LoggedIn(OneUser(), 0), 0);
            && issued.Issued? && issued.access.userId == 0 && s.users == map[0 := ClearFailures(Registered()).(lastLoginAt := Some(0))]
            && Admits(Tick(s, 0), issued.access) && s.next == 2
  {
  }

  lemma NotTaken(s: State, user: User, email: string)
    requires s.users == map[0 := user] && user.email != email
    ensures !EmailTaken(s, 0, email)
  {
    assert forall id :: !HasEmail(s.users, id, email);
  }

  lemma ToBIssues(cfg: Config, s: State, token: AccessToken, user: User)
    requires s.users == map[0 := user] && user.deletedAt.None? && user.email == "a@x" && token.userId == 0
    ensures IssuesThenFails(cfg, s, token, ToB())
  {
    hide EmailTaken, Text.Lower, Text.Normalize;
    AddressesNormal();
    NotTaken(s, user, "b@x");
  }

  lemma SessionIssues(cfg: Config)
    requires ValidConfig(cfg) && 1 <= cfg.accessLifetimeSeconds && 1 <= cfg.sessionLifetimeMs
    ensures var (s, issued) := OpenSession(cfg, LoggedIn(OneUser(), 0), 0);
            issued.Issued? && StepIssuesThenFails(cfg, s, Event(0, UpdateProfile(issued.access, ToB())))
  {
    hide OpenSession, Admits, IssuesThenFails, Touch, ToB;
    OpenedAdmits(cfg);
    var (s, issued) := OpenSession(cfg, LoggedIn(OneUser(), 0), 0);
    TouchFrame(cfg, Tick(s, 0), issued.access.sessionId);
    ToBIssues(cfg, Touch(cfg, Tick(s, 0), issued.access.sessionId), issued.access, ClearFailures(Registered()).(lastLoginAt := Some(0)));
  }

  /** The run of three events from an initial state. */
  ghost function ThreeSteps(cfg: Config, s: State, e0: Event, e1: Event, e2: Event): Run {
    var (s1, o1) := Step(cfg, s, e0);
    var (s2, o2) := Step(cfg, s1, e1);
    var (s3, o3) := Step(cfg, s2, e2);
    Run([s, s1, s2, s3], [e0, e1, e2], [o1, o2, o3])
  }

  lemma ThreeStepsRun(cfg: Config, s: State, e0: Event, e1: Event, e2: Event)
    requires Initial(s)
    ensures IsRun(cfg, ThreeSteps(cfg, s, e0, e1, e2))
  {
    hide Step, Initial;
  }

  /** For every configuration there is a run from one registered user: a login, a change of address that is
   *  rejected for its avatar, and a verification that vouches for the address the user still has, by a
   *  token that was sent to the other one. */
  lemma WrongAddressRun(cfg: Config) returns (run: Run)
    requires ValidConfig(cfg)
    requires 1 <= cfg.accessLifetimeSeconds && 1 <= cfg.sessionLifetimeMs && 1 <= cfg.verificationHours
    ensures IsRun(cfg, run) && |run.events| == 3 && run.states[0] == OneUser()
    ensures run.events[0].request == Login("a@x", "p") && run.outcomes[0].Issued?
    ensures run.events[1].request == UpdateProfile(run.outcomes[0].access, ToB()) && run.outcomes[1] == Failed(BadRequest)
    ensures run.events[2].request.VerifyEmail? && run.outcomes[2] == Done
    ensures var (t, raw) := (run.states[3], run.events[2].request.raw);
            && 0 in t.users && t.users[0].email == "a@x" && t.users[0].emailVerifiedAt.Some?
            && raw in t.actionTokens && t.actionTokens[raw].email == "b@x"
  {
    hide Step, OpenSession, Initial, StepIssuesThenFails, Text.Lower, Text.Normalize, Admits, IsRun;
    AddressesNormal();
    OneUserLogsIn(cfg);
    OpenedAdmits(cfg);
    SessionIssues(cfg);
    var (s1, issued) := OpenSession(cfg, LoggedIn(OneUser(), 0), 0);
    var e0, e1, e2 := Event(0, Login("a@x", "p")), Event(0, UpdateProfile(issued.access, ToB())), Event(0, VerifyEmail(s1.next));
    run := ThreeSteps(cfg, OneUser(), e0, e1, e2);
    ThreeStepsRun(cfg, OneUser(), e0, e1, e2);
    WrongAddressInRuns(cfg, run, 1);
  }
}
