/** Live accounts keep distinct addresses, so a lookup by e-mail finds the only row there is. */
module AuthEmails {
  import opened Wrappers
  import opened AuthModel
  import opened AuthEvolution

  type Users = map<UserId, User>

  ghost predicate EmailFree(users: Users, uid: UserId, email: string) {
    forall id | id in users && id != uid && users[id].deletedAt.None? :: users[id].email != email
  }

  /** A row may be saved if its address is the stored one and it was live before, or is free. */
  lemma SavedDistinct(users: Users, uid: UserId, user: User)
    requires DistinctEmails(users)
    requires (uid in users && users[uid].email == user.email && users[uid].deletedAt.None?) || EmailFree(users, uid, user.email)
    ensures DistinctEmails(users[uid := user])
  {
  }

  /** With distinct addresses the lookup is determined. */
  lemma FoundIsOnly(users: Users, uid: UserId, email: string)
    requires DistinctEmails(users) && HasEmail(users, uid, email)
    ensures FindByEmail(users, email) == Some(uid)
  {
  }

  lemma NotTakenIsFree(s: State, uid: UserId, email: string)
    requires DistinctEmails(s.users) && !EmailTaken(s, uid, email)
    ensures EmailFree(s.users, uid, email)
  {
    forall id | id in s.users && id != uid && s.users[id].deletedAt.None?
      ensures s.users[id].email != email
    {
      if s.users[id].email == email {
        FoundIsOnly(s.users, id, email);
      }
    }
  }

  lemma ProfileDistinct(cfg: Config, s: State, token: AccessToken, change: ProfileChange)
    requires DistinctEmails(s.users)
    ensures DistinctEmails(DoUpdateProfile(cfg, s, token, change).0.users)
  {
    hide DistinctEmails, ConsumeOutstanding, RevokeRows, Text.Lower;
    var uid := token.userId;
    if LiveUser(s, uid) {
      var (s1, user1) := ProfilePassword(cfg, s, token, change);
      if user1.Some? {
        var (s2, user2) := ProfileEmail(cfg, s1, uid, user1.value, change.email);
        if user2.Some? {
          var user3 := if change.avatar.AvatarKey? then user2.value.(avatarKey := change.avatar.key) else user2.value;
          if user2.value.email != user1.value.email {
            NotTakenIsFree(s1, uid, user2.value.email);
          }
          SavedDistinct(s.users, uid, user3);
        }
      }
    }
  }

  lemma UpdateUserDistinct(s: State, id: UserId, change: UserChange)
    requires DistinctEmails(s.users)
    ensures DistinctEmails(DoUpdateUser(s, id, change).0.users)
  {
    hide DistinctEmails, RevokedByUpdate, Text.Normalize;
    if LiveUser(s, id) {
      var edited := EditedUser(s.users[id], change, s.now, s.next);
      if Renames(s.users[id], change) && !EmailTaken(s, id, Text.Normalize(change.email.value)) {
        NotTakenIsFree(s, id, edited.email);
        SavedDistinct(s.users, id, edited);
      } else if !Renames(s.users[id], change) {
        SavedDistinct(s.users, id, edited);
      }
    }
  }

  lemma CreateUserDistinct(s: State, newUser: NewUser)
    requires DistinctEmails(s.users)
    ensures DistinctEmails(DoCreateUser(s, newUser).0.users)
  {
    hide Text.Normalize, DistinctEmails;
    var email := Text.Normalize(newUser.email);
    if FindByEmail(s.users, email).None? {
      assert forall id | id in s.users && s.users[id].deletedAt.None? :: !HasEmail(s.users, id, email);
      SavedDistinct(s.users, s.next, User(email, Some(Digest(Password(newUser.password), s.next)),
        if newUser.isActive.Some? then newUser.isActive.value else true, None, 0, None, None, None, Some(s.now), None, None, None));
    }
  }

  lemma HandleDistinct(cfg: Config, s: State, r: Request)
    requires Guarded(r) && DistinctEmails(s.users)
    ensures DistinctEmails(Handle(cfg, s, r).0.users)
  {
    hide DistinctEmails, RevokeRow, RevokeRows, RevokeUserRows, ConsumeOutstanding, DoUpdateProfile, DoUpdateUser, DoCreateUser;
    match r
    case UpdateProfile(token, change) => ProfileDistinct(cfg, s, token, change);
    case UpdateUser(token, id, change) => UpdateUserDistinct(s, id, change);
    case CreateUser(token, newUser) => CreateUserDistinct(s, newUser);
    case ResendVerification(token) =>
      if LiveUser(s, token.userId) {
        SavedDistinct(s.users, token.userId, s.users[token.userId].(verificationEmailSentAt := Some(s.now)));
      }
    case RemoveUser(token, id) =>
      if LiveUser(s, id) {
        SavedDistinct(s.users, id, s.users[id].(isActive := false, deletedAt := Some(s.now)));
      }
    case _ =>
  }

  lemma LoginDistinct(cfg: Config, s: State, email: string, password: string)
    requires DistinctEmails(s.users)
    ensures DistinctEmails(DoLogin(cfg, s, email, password).0.users)
  {
    hide DistinctEmails, Text.Normalize;
    match FindByEmail(s.users, Text.Normalize(email))
    case None =>
    case Some(uid) =>
      SavedDistinct(s.users, uid, FailedLogin(cfg, s, uid).users[uid]);
      SavedDistinct(s.users, uid, ClearFailures(s.users[uid]).(lastLoginAt := Some(s.now)));
  }

  lemma ActionDistinct(s: State, raw: nat, newPassword: string)
    requires DistinctEmails(s.users)
    ensures DistinctEmails(DoResetPassword(s, raw, newPassword).0.users)
    ensures DistinctEmails(DoVerifyEmail(s, raw).0.users)
  {
    hide RevokeRows;
  }

  /** Every step keeps the addresses of live accounts distinct. */
  lemma StepDistinct(cfg: Config, s: State, e: Event)
    requires DistinctEmails(s.users)
    ensures DistinctEmails(Step(cfg, s, e).0.users)
  {
    hide DistinctEmails, Handle, Touch, DoLogin, DoRefresh, DoResetPassword, DoVerifyEmail, ConsumeOutstanding, Text.Normalize;
    var t, r := Tick(s, e.elapsed), e.request;
    if Touches(t, r) {
      TouchFrame(cfg, t, TokenOf(r).sessionId);
      HandleDistinct(cfg, Touch(cfg, t, TokenOf(r).sessionId), r);
    } else {
      match r
      case Login(email, password) => LoginDistinct(cfg, t, email, password);
      case Refresh(token) => RefreshFrame(cfg, t, token);
      case ResetPassword(raw, newPassword) => ActionDistinct(t, raw, newPassword);
      case VerifyEmail(raw) => ActionDistinct(t, raw, "");
      case _ =>
    }
  }

  lemma {:induction false} RunDistinct(cfg: Config, s: State, es: seq<Event>)
    requires Initial(s)
    ensures DistinctEmails(After(cfg, s, es).users)
  {
    hide Step;
    if es != [] {
      hide DistinctEmails;
      RunDistinct(cfg, s, es[..|es| - 1]);
      StepDistinct(cfg, After(cfg, s, es[..|es| - 1]), es[|es| - 1]);
    }
  }

  /** In every reachable state live accounts have distinct addresses. */
  lemma AddressesDistinct(cfg: Config, run: Run, k: nat)
    requires IsRun(cfg, run) && k <= |run.events|
    ensures DistinctEmails(run.states[k].users)
  {
    hide Step, Initial, DistinctEmails;
    RunState(cfg, run, k);
    RunDistinct(cfg, run.states[0], run.events[..k]);
  }
}
