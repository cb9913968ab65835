/** One-time action tokens: one outstanding per purpose, each accepted once, and which address a
 *  verification token vouches for. */
module AuthActionTokens {
  import opened Wrappers
  import opened AuthModel
  import opened AuthEvolution

  type TokenTable = map<nat, ActionToken>

  /** A row's hash is that of its own raw token, and at most one row is outstanding per user and purpose. */
  ghost predicate OneOutstanding(rows: TokenTable, next: nat) {
    && (forall id | id in rows :: id < next && rows[id].tokenHash == Sha256(id))
    && (forall a, b | a in rows && b in rows && rows[a].consumedAt.None? && rows[b].consumedAt.None?
                      && rows[a].userId == rows[b].userId && rows[a].purpose == rows[b].purpose :: a == b)
  }

  /** Rows are deleted or consumed, never reopened; new rows get fresh numbers. */
  ghost predicate TokensEvolve(a: TokenTable, next: nat, b: TokenTable) {
    forall id | id in b && id < next ::
      && id in a
      && b[id] == a[id].(consumedAt := b[id].consumedAt)
      && (a[id].consumedAt.Some? ==> b[id].consumedAt.Some?)
  }

  ghost predicate TokensAdvance(s: State, t: State) {
    && s.next <= t.next
    && OneOutstanding(t.actionTokens, t.next)
    && TokensEvolve(s.actionTokens, s.next, t.actionTokens)
  }

  ghost predicate NoneOutstanding(rows: TokenTable, uid: UserId, purpose: Purpose) {
    forall id | id in rows && rows[id].userId == uid && rows[id].purpose == purpose :: rows[id].consumedAt.Some?
  }

  lemma OutstandingConsumed(rows: TokenTable, next: nat, uid: UserId, purpose: Purpose, now: Time)
    requires OneOutstanding(rows, next)
    ensures var rows' := ConsumeOutstanding(rows, uid, purpose, now);
            OneOutstanding(rows', next) && TokensEvolve(rows, next, rows') && NoneOutstanding(rows', uid, purpose)
  {
  }

  lemma InsertOutstanding(rows: TokenTable, next: nat, row: ActionToken)
    requires OneOutstanding(rows, next) && NoneOutstanding(rows, row.userId, row.purpose) && row.tokenHash == Sha256(next)
    ensures OneOutstanding(rows[next := row], next + 1)
  {
  }

  lemma CreateAdvances(cfg: Config, s: State, uid: UserId, email: string, purpose: Purpose)
    requires OneOutstanding(s.actionTokens, s.next)
    ensures TokensAdvance(s, CreateToken(cfg, s, uid, email, purpose))
  {
    hide OneOutstanding, ConsumeOutstanding;
    OutstandingConsumed(s.actionTokens, s.next, uid, purpose, s.now);
    InsertOutstanding(ConsumeOutstanding(s.actionTokens, uid, purpose, s.now), s.next,
                      CreateToken(cfg, s, uid, email, purpose).actionTokens[s.next]);
  }

  lemma ConsumeAdvances(s: State, id: nat)
    requires OneOutstanding(s.actionTokens, s.next) && id in s.actionTokens
    ensures TokensAdvance(s, ConsumeRow(s, id))
  {
  }

  lemma DeleteAdvances(s: State, uid: UserId)
    requires OneOutstanding(s.actionTokens, s.next)
    ensures TokensAdvance(s, DropTokensOf(s, uid))
    ensures TokensAdvance(s, DropDeadTokens(s))
  {
  }

  lemma SameTokensAdvance(s: State, t: State)
    requires OneOutstanding(s.actionTokens, s.next) && s.next <= t.next && t.actionTokens == s.actionTokens
    ensures TokensAdvance(s, t)
  {
  }

  lemma UpdateProfileAdvances(cfg: Config, s: State, token: AccessToken, change: ProfileChange)
    requires OneOutstanding(s.actionTokens, s.next)
    ensures TokensAdvance(s, DoUpdateProfile(cfg, s, token, change).0)
  {
    hide RevokeRows, CreateToken, Text.Lower, OneOutstanding, TokensEvolve;
    SameTokensAdvance(s, s);
    var s1 := s.(next := s.next + 1);
    SameTokensAdvance(s, s1);
    if LiveUser(s, token.userId) {
      s1 := ProfilePassword(cfg, s, token, change).0;
      SameTokensAdvance(s, s1);
      if Truthy(change.email) {
        var lowered := Text.Lower(change.email.value);
        CreateAdvances(cfg, s1, token.userId, lowered, EmailVerification);
        CreateFrame(cfg, s1, token.userId, lowered, EmailVerification);
        AdvanceFromSame(s, s1, CreateToken(cfg, s1, token.userId, lowered, EmailVerification));
      }
    }
  }

  lemma CreateFrame(cfg: Config, s: State, uid: UserId, email: string, purpose: Purpose)
    ensures var t := CreateToken(cfg, s, uid, email, purpose);
            t.users == s.users && t.next == s.next + 1 && t.store == s.store && t.setter == s.setter && t.now == s.now
  {
  }

  lemma AdvanceFromSame(s: State, t: State, u: State)
    requires s.actionTokens == t.actionTokens && s.next <= t.next && TokensAdvance(t, u)
    ensures TokensAdvance(s, u)
  {
  }

  lemma UpdateUserAdvances(s: State, id: UserId, change: UserChange)
    requires OneOutstanding(s.actionTokens, s.next)
    ensures TokensAdvance(s, DoUpdateUser(s, id, change).0)
  {
    hide RevokedByUpdate, DropTokensOf, EditedUser, Renames, OneOutstanding, TokensEvolve, Text.Normalize;
    SameTokensAdvance(s, s);
    SameTokensAdvance(s, s.(next := s.next + 1));
    DeleteAdvances(s, id);
    var dropped := DropTokensOf(s, id);
    DropFrame(s, id);
    LaterNumberAdvances(s, dropped);
  }

  lemma DropFrame(s: State, id: UserId)
    ensures var t := DropTokensOf(s, id);
            t.users == s.users && t.next == s.next && t.store == s.store && t.setter == s.setter && t.now == s.now
  {
  }

  lemma LaterNumberAdvances(s: State, t: State)
    requires TokensAdvance(s, t)
    ensures forall u: State | t.next <= u.next && u.actionTokens == t.actionTokens :: TokensAdvance(s, u)
  {
  }

  lemma HandleAdvances(cfg: Config, s: State, r: Request)
    requires Guarded(r) && OneOutstanding(s.actionTokens, s.next)
    ensures TokensAdvance(s, Handle(cfg, s, r).0)
  {
    hide RevokeRow, RevokeRows, RevokeUserRows, CreateToken, DoUpdateProfile, DoUpdateUser, OneOutstanding, TokensEvolve,
      Text.Normalize;
    SameTokensAdvance(s, s);
    match r
    case UpdateProfile(token, change) => UpdateProfileAdvances(cfg, s, token, change);
    case UpdateUser(token, id, change) => UpdateUserAdvances(s, id, change);
    case ResendVerification(token) =>
      if LiveUser(s, token.userId) {
        CreateAdvances(cfg, s, token.userId, s.users[token.userId].email, EmailVerification);
        CreateFrame(cfg, s, token.userId, s.users[token.userId].email, EmailVerification);
      }
    case CreateUser(token, newUser) => SameTokensAdvance(s, DoCreateUser(s, newUser).0);
    case _ =>
  }

  lemma PublicAdvances(cfg: Config, s: State, r: Request)
    requires !Guarded(r) && OneOutstanding(s.actionTokens, s.next)
    ensures TokensAdvance(s, Serve(cfg, s, r).0)
  {
    hide OneOutstanding, TokensEvolve, DoLogin, DoRefresh, CreateToken, RevokeRows, DropDeadTokens, DropDeadSessions,
      Text.Normalize;
    SameTokensAdvance(s, s);
    match r
    case Login(email, password) => LoginKeepsTokens(cfg, s, email, password);
    case Refresh(token) => RefreshKeepsTokens(cfg, s, token);
    case ForgotPassword(email) =>
      match FindByEmail(s.users, Text.Normalize(email)) {
        case None =>
        case Some(uid) => CreateAdvances(cfg, s, uid, s.users[uid].email, PasswordReset);
      }
    case ResetPassword(raw, newPassword) =>
      match ConsumableToken(s, raw, PasswordReset) {
        case None =>
        case Some(id) => ConsumeAdvances(s, id); LaterNumberAdvances(s, ConsumeRow(s, id));
      }
    case VerifyEmail(raw) =>
      match ConsumableToken(s, raw, EmailVerification) {
        case None =>
        case Some(id) => ConsumeAdvances(s, id);
      }
    case CleanupSessions => assert DropDeadSessions(s).actionTokens == s.actionTokens && DropDeadSessions(s).next == s.next by { CleanupFrame(s); }
    case CleanupTokens => DeleteAdvances(s, 0);
    case Idle =>
  }

  lemma CleanupFrame(s: State)
    ensures DropDeadSessions(s).actionTokens == s.actionTokens && DropDeadSessions(s).next == s.next
  {
  }

  lemma LoginKeepsTokens(cfg: Config, s: State, email: string, password: string)
    requires OneOutstanding(s.actionTokens, s.next)
    ensures TokensAdvance(s, DoLogin(cfg, s, email, password).0)
  {
    hide OneOutstanding, TokensEvolve, Text.Normalize;
    SameTokensAdvance(s, s);
    SameTokensAdvance(s, s.(next := s.next + 1));
  }

  lemma RefreshKeepsTokens(cfg: Config, s: State, token: RefreshToken)
    requires OneOutstanding(s.actionTokens, s.next)
    ensures TokensAdvance(s, DoRefresh(cfg, s, token).0)
  {
    hide OneOutstanding, TokensEvolve, RevokeRows;
    SameTokensAdvance(s, s);
    SameTokensAdvance(s, s.(next := s.next + 1));
  }

  lemma StepAdvances(cfg: Config, s: State, e: Event)
    requires OneOutstanding(s.actionTokens, s.next)
    ensures TokensAdvance(s, Step(cfg, s, e).0)
  {
    hide OneOutstanding, TokensEvolve, Handle, Touch, Admits, DoLogin, DoRefresh, DoForgotPassword, DoResetPassword,
      DoVerifyEmail, DropDeadTokens, DropDeadSessions;
    var t, r := Tick(s, e.elapsed), e.request;
    SameTokensAdvance(s, t);
    if Guarded(r) {
      if Admits(t, TokenOf(r)) {
        TouchFrame(cfg, t, TokenOf(r).sessionId);
        HandleAdvances(cfg, Touch(cfg, t, TokenOf(r).sessionId), r);
      }
    } else {
      PublicAdvances(cfg, t, r);
    }
  }

  lemma LaterOneOutstanding(rows: TokenTable, next: nat)
    requires OneOutstanding(rows, next)
    ensures OneOutstanding(rows, next + 1)
  {
  }

  lemma {:induction false} RunOneOutstanding(cfg: Config, s: State, es: seq<Event>)
    requires Initial(s)
    ensures var t := After(cfg, s, es); OneOutstanding(t.actionTokens, t.next)
  {
    hide Step;
    if es != [] {
      hide OneOutstanding, TokensEvolve;
      RunOneOutstanding(cfg, s, es[..|es| - 1]);
      StepAdvances(cfg, After(cfg, s, es[..|es| - 1]), es[|es| - 1]);
    }
  }

  // ------------------------------------------------------------------ main results

  /** In every reachable state a user has at most one unconsumed token of a purpose. */
  lemma AtMostOneOutstanding(cfg: Config, run: Run, k: nat, a: nat, b: nat)
    requires IsRun(cfg, run) && k <= |run.events|
    requires var rows := run.states[k].actionTokens;
             && a in rows && b in rows && rows[a].consumedAt.None? && rows[b].consumedAt.None?
             && rows[a].userId == rows[b].userId && rows[a].purpose == rows[b].purpose
    ensures a == b
  {
    hide Step;
    RunState(cfg, run, k);
    RunOneOutstanding(cfg, run.states[0], run.events[..k]);
  }

  /** The event presents the raw token and consumeToken accepts it. */
  ghost predicate AcceptsRaw(s: State, e: Event, raw: nat) {
    var t := Tick(s, e.elapsed);
    || (e.request.VerifyEmail? && e.request.raw == raw && ConsumableToken(t, raw, EmailVerification).Some?)
    || (e.request.ResetPassword? && e.request.raw == raw && ConsumableToken(t, raw, PasswordReset).Some?)
  }

  ghost predicate UsedUp(s: State, raw: nat) {
    raw < s.next && (raw in s.actionTokens ==> s.actionTokens[raw].consumedAt.Some?)
  }

  lemma AcceptanceUsesUp(cfg: Config, s: State, e: Event, raw: nat)
    requires OneOutstanding(s.actionTokens, s.next) && AcceptsRaw(s, e, raw)
    ensures UsedUp(Step(cfg, s, e).0, raw)
  {
    hide RevokeRows;
  }

  lemma {:induction false} UsedUpStays(cfg: Config, s: State, es: seq<Event>, i: nat, j: nat, raw: nat)
    requires Initial(s) && i <= j <= |es| && UsedUp(After(cfg, s, es[..i]), raw)
    ensures UsedUp(After(cfg, s, es[..j]), raw)
    decreases j
  {
    hide Step, OneOutstanding;
    if i < j {
      UsedUpStays(cfg, s, es, i, j - 1, raw);
      RunOneOutstanding(cfg, s, es[..j - 1]);
      StepAdvances(cfg, After(cfg, s, es[..j - 1]), es[j - 1]);
      AfterSnoc(cfg, s, es, j - 1);
    }
  }

  /** Over any run each raw token is accepted at most once, whatever the purposes it is tried for. */
  lemma RawTokenAcceptedAtMostOnce(cfg: Config, run: Run, i: nat, j: nat, raw: nat)
    requires IsRun(cfg, run) && i < j < |run.events|
    requires AcceptsRaw(run.states[i], run.events[i], raw)
    ensures !AcceptsRaw(run.states[j], run.events[j], raw)
  {
    hide Step, AcceptsRaw, UsedUp, OneOutstanding, Initial;
    RunState(cfg, run, i);
    RunState(cfg, run, i + 1);
    RunState(cfg, run, j);
    RunStep(cfg, run, i);
    RunOneOutstanding(cfg, run.states[0], run.events[..i]);
    RunOneOutstanding(cfg, run.states[0], run.events[..j]);
    AcceptanceUsesUp(cfg, run.states[i], run.events[i], raw);
    UsedUpStays(cfg, run.states[0], run.events, i + 1, j, raw);
    UsedUpRefused(run.states[j], run.events[j], raw);
  }

  lemma UsedUpRefused(s: State, e: Event, raw: nat)
    requires UsedUp(s, raw) && OneOutstanding(s.actionTokens, s.next)
    ensures !AcceptsRaw(s, e, raw)
  {
  }
}
