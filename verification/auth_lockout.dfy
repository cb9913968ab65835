/** Lockout: how fast wrong passwords can be checked against one account. */
module AuthLockout {
  import opened Wrappers
  import opened AuthModel
  import opened AuthEvolution
  import opened AuthOwners

  /** A login for uid that reaches the password comparison and fails it. */
  ghost predicate WrongCheck(cfg: Config, s: State, e: Event, uid: UserId) {
    var t := Tick(s, e.elapsed);
    && e.request.Login?
    && FindByEmail(t.users, Text.Normalize(e.request.email)) == Some(uid)
    && var user := t.users[uid];
       && user.passwordHash.Some? && user.isActive && !Locked(user, t.now)
       && !cfg.compare(Password(e.request.password), user.passwordHash.value)
  }

  /** A successful login or a completed password reset of uid. */
  ghost predicate Clears(cfg: Config, s: State, e: Event, uid: UserId) {
    var t := Tick(s, e.elapsed);
    || (Opens(cfg, t, e.request) && FindByEmail(t.users, Text.Normalize(e.request.email)) == Some(uid))
    || (&& e.request.ResetPassword?
        && var found := ConsumableToken(t, e.request.raw, PasswordReset);
           found.Some? && t.actionTokens[found.value].userId == uid && LiveUser(t, uid))
  }

  ghost predicate SameLock(s: State, t: State, uid: UserId) {
    && uid in s.users && uid in t.users
    && s.users[uid].failedLoginCount == t.users[uid].failedLoginCount
    && s.users[uid].lockedUntil == t.users[uid].lockedUntil
  }

  /** The row after one more failure at `now`. */
  ghost predicate FailedOnce(cfg: Config, s: State, t: State, uid: UserId) {
    && uid in s.users && uid in t.users
    && var a, b := s.users[uid], t.users[uid];
       && b.failedLoginCount == a.failedLoginCount + 1
       && b.lockedUntil == if b.failedLoginCount >= cfg.maxFailedLogins then Some(t.now + LockMs(cfg)) else a.lockedUntil
  }

  lemma ProfileKeepsLock(cfg: Config, s: State, token: AccessToken, change: ProfileChange, uid: UserId)
    requires uid in s.users
    ensures SameLock(s, DoUpdateProfile(cfg, s, token, change).0, uid)
  {
    hide RevokeRows, ConsumeOutstanding, Text.Lower;
  }

  lemma UpdateKeepsLock(s: State, id: UserId, change: UserChange, uid: UserId)
    requires uid in s.users
    ensures SameLock(s, DoUpdateUser(s, id, change).0, uid)
  {
    hide RevokedByUpdate, Text.Normalize, DropTokensOf;
    assert DropTokensOf(s, id).users == s.users by { DropKeepsUsers(s, id); }
  }

  lemma DropKeepsUsers(s: State, id: UserId)
    ensures DropTokensOf(s, id).users == s.users
  {
  }

  lemma HandleKeepsLock(cfg: Config, s: State, r: Request, uid: UserId)
    requires Guarded(r) && uid in s.users && uid < s.next
    ensures SameLock(s, Handle(cfg, s, r).0, uid)
  {
    hide RevokeRow, RevokeRows, RevokeUserRows, ConsumeOutstanding, DoUpdateProfile, DoUpdateUser, Text.Normalize;
    match r
    case UpdateProfile(token, change) => ProfileKeepsLock(cfg, s, token, change, uid);
    case UpdateUser(token, id, change) => UpdateKeepsLock(s, id, change, uid);
    case _ =>
  }

  /** What one step does to the lock of one user. */
  lemma StepLock(cfg: Config, s: State, e: Event, uid: UserId)
    requires uid in s.users && uid < s.next
    ensures var u := Step(cfg, s, e).0;
            if WrongCheck(cfg, s, e, uid) then FailedOnce(cfg, s, u, uid) else Clears(cfg, s, e, uid) || SameLock(s, u, uid)
  {
    hide Handle, DoRefresh, Touch, Admits, OpenSession, ConsumeOutstanding, RevokeRows, Text.Normalize;
    var t, r := Tick(s, e.elapsed), e.request;
    if Touches(t, r) {
      TouchFrame(cfg, t, TokenOf(r).sessionId);
      HandleKeepsLock(cfg, Touch(cfg, t, TokenOf(r).sessionId), r, uid);
    } else if r.Refresh? {
      RefreshFrame(cfg, t, r.refreshToken);
    } else if r.Login? {
      LoginLock(cfg, t, r, uid);
    }
  }

  lemma LoginLock(cfg: Config, s: State, r: Request, uid: UserId)
    requires r.Login? && uid in s.users
    ensures var t := DoLogin(cfg, s, r.email, r.password).0;
            if WrongCheck(cfg, s, Event(0, r), uid) then FailedOnce(cfg, s, t, uid)
            else (Opens(cfg, s, r) && FindByEmail(s.users, Text.Normalize(r.email)) == Some(uid)) || SameLock(s, t, uid)
  {
    hide Text.Normalize;
    assert Tick(s, 0) == s;
  }

  /** The times of the wrong checks against uid among the events from index a up to index b. */
  ghost function FailTimes(cfg: Config, run: Run, uid: UserId, a: nat, b: nat): seq<Time>
    requires IsRun(cfg, run) && b <= |run.events|
    decreases b
  {
    if b <= a then []
    else FailTimes(cfg, run, uid, a, b - 1) +
         (if WrongCheck(cfg, run.states[b - 1], run.events[b - 1], uid) then [run.states[b].now] else [])
  }

  /** Once maxFailedLogins checks have failed, each further one waits out a whole lock. */
  ghost predicate Spaced(cfg: Config, times: seq<Time>)
    requires 1 <= cfg.maxFailedLogins
  {
    forall k | cfg.maxFailedLogins <= k < |times| :: times[k - 1] + LockMs(cfg) <= times[k]
  }

  ghost predicate LockState(cfg: Config, t: State, uid: UserId, times: seq<Time>)
    requires 1 <= cfg.maxFailedLogins
  {
    && uid in t.users
    && t.users[uid].failedLoginCount == |times|
    && (cfg.maxFailedLogins <= |times| ==> t.users[uid].lockedUntil == Some(times[|times| - 1] + LockMs(cfg)))
  }

  ghost predicate Uncleared(cfg: Config, run: Run, uid: UserId, a: nat, b: nat)
    requires IsRun(cfg, run) && b <= |run.events|
  {
    forall k: nat | a <= k < b :: !Clears(cfg, run.states[k], run.events[k], uid)
  }

  lemma {:induction false} SegmentLock(cfg: Config, run: Run, uid: UserId, a: nat, b: nat)
    requires ValidConfig(cfg) && IsRun(cfg, run) && a <= b <= |run.events|
    requires uid in run.states[a].users && run.states[a].users[uid].failedLoginCount == 0
    requires Uncleared(cfg, run, uid, a, b)
    ensures LockState(cfg, run.states[b], uid, FailTimes(cfg, run, uid, a, b))
    ensures Spaced(cfg, FailTimes(cfg, run, uid, a, b))
    decreases b
  {
    hide Step, Clears, WrongCheck, Sound, Initial;
    if a < b {
      hide Spaced, FailedOnce;
      SegmentLock(cfg, run, uid, a, b - 1);
      var before := run.states[b - 1];
      RunState(cfg, run, b - 1);
      RunSound(cfg, run.states[0], run.events[..b - 1]);
      SoundUsersBelow(before);
      RunStep(cfg, run, b - 1);
      StepLock(cfg, before, run.events[b - 1], uid);
      if WrongCheck(cfg, before, run.events[b - 1], uid) {
        WrongCheckUnlocked(cfg, before, run.events[b - 1], uid);
        FailureAppends(cfg, before, run.states[b], uid, FailTimes(cfg, run, uid, a, b - 1));
      } else {
        assert !Clears(cfg, before, run.events[b - 1], uid);
      }
    }
  }

  lemma FailureAppends(cfg: Config, s: State, t: State, uid: UserId, times: seq<Time>)
    requires 1 <= cfg.maxFailedLogins
    requires LockState(cfg, s, uid, times) && Spaced(cfg, times)
    requires FailedOnce(cfg, s, t, uid) && !Locked(s.users[uid], t.now)
    ensures LockState(cfg, t, uid, times + [t.now]) && Spaced(cfg, times + [t.now])
  {
  }

  lemma WrongCheckUnlocked(cfg: Config, s: State, e: Event, uid: UserId)
    requires WrongCheck(cfg, s, e, uid)
    ensures uid in s.users && !Locked(s.users[uid], s.now + e.elapsed)
    ensures Step(cfg, s, e).0.now == s.now + e.elapsed
  {
    hide Text.Normalize;
  }

  /** Lockout bound: in any part of any run that starts with count 0 and contains no successful login
   *  and no completed reset of the user, the nth wrong-password check with nth > maxFailedLogins comes
   *  at least (nth - maxFailedLogins) whole lock periods after check number maxFailedLogins. */
  lemma LockoutBound(cfg: Config, run: Run, uid: UserId, a: nat, b: nat, nth: nat)
    requires ValidConfig(cfg) && IsRun(cfg, run) && a <= b <= |run.events|
    requires uid in run.states[a].users && run.states[a].users[uid].failedLoginCount == 0
    requires Uncleared(cfg, run, uid, a, b)
    requires cfg.maxFailedLogins < nth <= |FailTimes(cfg, run, uid, a, b)|
    ensures var times := FailTimes(cfg, run, uid, a, b);
            times[cfg.maxFailedLogins - 1] + (nth - cfg.maxFailedLogins) * LockMs(cfg) <= times[nth - 1]
  {
    hide Step, Uncleared, LockState, Initial;
    SegmentLock(cfg, run, uid, a, b);
    SpacedSum(cfg, FailTimes(cfg, run, uid, a, b), nth);
  }

  lemma {:induction false} SpacedSum(cfg: Config, times: seq<Time>, nth: nat)
    requires 1 <= cfg.maxFailedLogins <= nth <= |times| && Spaced(cfg, times)
    ensures times[cfg.maxFailedLogins - 1] + (nth - cfg.maxFailedLogins) * LockMs(cfg) <= times[nth - 1]
  {
    if cfg.maxFailedLogins < nth {
      SpacedSum(cfg, times, nth - 1);
      assert (nth - cfg.maxFailedLogins) * LockMs(cfg) == (nth - 1 - cfg.maxFailedLogins) * LockMs(cfg) + LockMs(cfg);
    }
  }
}
