/** Refresh-token rotation (section 4.14.2 of RFC 9700): every minted token is accepted at most once,
 *  and presenting a spent one while its session lives closes the whole account. */
module AuthRotation {
  import opened Wrappers
  import opened AuthModel
  import opened AuthEvolution
  import opened AuthOwners

  ghost predicate HasToken(minted: set<RefreshToken>, sid: SessionId, version: nat) {
    exists token :: token in minted && token.sessionId == sid && token.tokenVersion == version
  }

  /** One minted token per session and version. */
  ghost predicate OnePerVersion(minted: set<RefreshToken>) {
    forall a, b | a in minted && b in minted && a.sessionId == b.sessionId && a.tokenVersion == b.tokenVersion :: a == b
  }

  ghost predicate MintedFor(store: SessionStore, next: nat, token: RefreshToken) {
    && token.sessionId < next && 1 <= token.tokenVersion
    && (token.sessionId in store.rows ==>
          && token.userId == store.rows[token.sessionId].userId
          && token.tokenVersion <= store.rows[token.sessionId].tokenVersion)
  }

  /** The row's digest was made from the minted token of its present version. */
  ghost predicate HoldsCurrent(store: SessionStore, sid: SessionId)
    requires sid in store.rows
  {
    var secret := store.rows[sid].refreshTokenHash.secret;
    && secret.Jwt? && secret.token in store.refreshMinted
    && secret.token.sessionId == sid && secret.token.tokenVersion == store.rows[sid].tokenVersion
  }

  /** The tokens minted for a session carry exactly the versions 1..tokenVersion. */
  ghost predicate Complete(store: SessionStore, sid: SessionId)
    requires sid in store.rows
  {
    forall v: nat :: HasToken(store.refreshMinted, sid, v) <==> 1 <= v <= store.rows[sid].tokenVersion
  }

  ghost predicate Rotation(store: SessionStore, next: nat) {
    && OnePerVersion(store.refreshMinted)
    && (forall token | token in store.refreshMinted :: MintedFor(store, next, token))
    && (forall sid | sid in store.rows :: sid < next && HoldsCurrent(store, sid) && Complete(store, sid))
  }

  /** No row gained, and none changed in what rotation reads. */
  ghost predicate SameChains(a: SessionStore, b: SessionStore) {
    && a.refreshMinted == b.refreshMinted
    && forall sid | sid in b.rows ::
         && sid in a.rows
         && a.rows[sid].userId == b.rows[sid].userId
         && a.rows[sid].tokenVersion == b.rows[sid].tokenVersion
         && a.rows[sid].refreshTokenHash == b.rows[sid].refreshTokenHash
  }

  lemma SameChainsRotation(a: SessionStore, b: SessionStore, next: nat, later: nat)
    requires SameChains(a, b) && next <= later && Rotation(a, next)
    ensures Rotation(b, later)
  {
    forall sid | sid in b.rows
      ensures HoldsCurrent(b, sid) && Complete(b, sid)
    {
      assert HoldsCurrent(a, sid) && Complete(a, sid);
    }
  }

  lemma QuietRotation(s: State, t: State)
    requires Quiet(s, t) && Rotation(s.store, s.next)
    ensures Rotation(t.store, t.next)
  {
    hide Rotation;
    SameChainsRotation(s.store, t.store, s.next, t.next);
  }

  lemma TouchRotation(cfg: Config, s: State, sid: SessionId)
    requires Rotation(s.store, s.next)
    ensures Rotation(Touch(cfg, s, sid).store, s.next)
  {
    hide Rotation;
    SameChainsRotation(s.store, Touch(cfg, s, sid).store, s.next, s.next);
  }

  /** A token of a session and version not minted before keeps the counting exact. */
  lemma MintKeeps(a: SessionStore, b: SessionStore, next: nat, token: RefreshToken)
    requires Rotation(a, next)
    requires b.refreshMinted == a.refreshMinted + {token}
    requires token.sessionId <= next && 1 <= token.tokenVersion
    requires forall sid | sid in b.rows && sid != token.sessionId :: sid in a.rows && b.rows[sid] == a.rows[sid]
    requires token.sessionId in b.rows
    requires var row := b.rows[token.sessionId];
             row.userId == token.userId && row.tokenVersion == token.tokenVersion && row.refreshTokenHash.secret == Jwt(token)
    requires if token.sessionId in a.rows
             then a.rows[token.sessionId].userId == token.userId && a.rows[token.sessionId].tokenVersion + 1 == token.tokenVersion
             else token.sessionId == next && token.tokenVersion == 1
    ensures Rotation(b, next + 1)
  {
    forall sid | sid in b.rows
      ensures HoldsCurrent(b, sid) && Complete(b, sid)
    {
      if sid != token.sessionId {
        assert HoldsCurrent(a, sid) && Complete(a, sid);
      } else if sid in a.rows {
        assert Complete(a, sid);
      }
      forall v: nat
        ensures HasToken(b.refreshMinted, sid, v) <==> 1 <= v <= b.rows[sid].tokenVersion
      {
        MintedVersions(a.refreshMinted, token, sid, v);
        if sid !in a.rows {
          assert !HasToken(a.refreshMinted, sid, v);
        }
      }
    }
  }

  lemma MintedVersions(minted: set<RefreshToken>, token: RefreshToken, sid: SessionId, v: nat)
    ensures HasToken(minted + {token}, sid, v) <==>
              HasToken(minted, sid, v) || (token.sessionId == sid && token.tokenVersion == v)
  {
    if HasToken(minted, sid, v) {
      var t :| t in minted && t.sessionId == sid && t.tokenVersion == v;
      assert t in minted + {token};
    }
    if token.sessionId == sid && token.tokenVersion == v {
      assert token in minted + {token};
    }
  }

  lemma OpenRotation(cfg: Config, s: State, uid: UserId)
    requires Rotation(s.store, s.next) && uid in s.users
    ensures var t := OpenSession(cfg, s, uid).0; Rotation(t.store, t.next)
  {
    hide Rotation;
    assert s.next !in s.store.rows by { RowsBelow(s.store, s.next); }
    MintKeeps(s.store, OpenSession(cfg, s, uid).0.store, s.next, MintRefresh(cfg, s, uid, s.next, 1));
  }

  lemma RowsBelow(store: SessionStore, next: nat)
    requires Rotation(store, next)
    ensures forall sid | sid in store.rows :: sid < next
  {
  }

  lemma RotateRotation(cfg: Config, s: State, token: RefreshToken)
    requires Rotation(s.store, s.next) && Redeemable(s, token)
    ensures var t := Rotate(cfg, s, token.sessionId, token.userId).0; Rotation(t.store, t.next)
  {
    hide Rotation;
    RowsBelow(s.store, s.next);
    var version := s.store.rows[token.sessionId].tokenVersion + 1;
    MintKeeps(s.store, Rotate(cfg, s, token.sessionId, token.userId).0.store, s.next,
              MintRefresh(cfg, s, token.userId, token.sessionId, version));
  }

  lemma StepRotation(cfg: Config, s: State, e: Event)
    requires Rotation(s.store, s.next)
    ensures var t := Step(cfg, s, e).0; Rotation(t.store, t.next)
  {
    hide Rotation, Step, Opens, Rotates, Admits, Touch, Quiet, OpenSession, Rotate, Text.Normalize;
    var t, r, u := Tick(s, e.elapsed), e.request, Step(cfg, s, e).0;
    StepShape(cfg, s, e);
    if Touches(t, r) {
      var v := Touch(cfg, t, TokenOf(r).sessionId);
      TouchRotation(cfg, t, TokenOf(r).sessionId);
      assert v.next == t.next by { TouchFrame(cfg, t, TokenOf(r).sessionId); }
      QuietRotation(v, u);
    } else if Opens(cfg, t, r) {
      OpenRotation(cfg, LoggedIn(t, LoginUser(t, r)), LoginUser(t, r));
    } else if Rotates(cfg, t, r) {
      RotateRotation(cfg, t, r.refreshToken);
    } else {
      QuietRotation(t, u);
    }
  }

  lemma {:induction false} RunRotation(cfg: Config, s: State, es: seq<Event>)
    requires Initial(s)
    ensures var t := After(cfg, s, es); Rotation(t.store, t.next)
  {
    hide Step;
    if es != [] {
      hide Rotation;
      RunRotation(cfg, s, es[..|es| - 1]);
      StepRotation(cfg, After(cfg, s, es[..|es| - 1]), es[|es| - 1]);
    }
  }

  // ------------------------------------------------------------------ main results

  ghost predicate AcceptsRefresh(cfg: Config, s: State, elapsed: nat, token: RefreshToken) {
    Step(cfg, s, Event(elapsed, Refresh(token))).1.Issued?
  }

  /** Exactly when a refresh is accepted: the token is signed and unexpired, its session is live, it
   *  carries the session's present version and the owner is active.  The bcrypt comparison decides
   *  nothing: with the version right, the token presented is the one the digest was made from. */
  lemma AcceptedExactly(cfg: Config, run: Run, k: nat, token: RefreshToken)
    requires ValidConfig(cfg) && IsRun(cfg, run) && k < |run.events| && run.events[k].request == Refresh(token)
    ensures run.outcomes[k].Issued? <==> Redeemable(Tick(run.states[k], run.events[k].elapsed), token)
  {
    hide Step, Redeemable;
    RunState(cfg, run, k);
    RunStep(cfg, run, k);
    RunRotation(cfg, run.states[0], run.events[..k]);
    AcceptedWhenSound(cfg, run.states[k], run.events[k].elapsed, token);
    assert run.events[k] == Event(run.events[k].elapsed, Refresh(token));
  }

  lemma AcceptedWhenSound(cfg: Config, s: State, elapsed: nat, token: RefreshToken)
    requires ValidConfig(cfg) && Rotation(s.store, s.next)
    ensures AcceptsRefresh(cfg, s, elapsed, token) <==> Redeemable(Tick(s, elapsed), token)
  {
    var t := Tick(s, elapsed);
    if Redeemable(t, token) {
      var row := t.store.rows[token.sessionId];
      assert HoldsCurrent(t.store, token.sessionId);
      assert row.refreshTokenHash == Digest(Jwt(token), row.refreshTokenHash.salt);
      RotateIssues(cfg, t, token.sessionId, token.userId);
    }
  }

  /** At most one token of a session is redeemable at any time. */
  lemma OneRedeemable(cfg: Config, run: Run, k: nat, elapsed: nat, a: RefreshToken, b: RefreshToken)
    requires IsRun(cfg, run) && k <= |run.events| && a.sessionId == b.sessionId
    requires Redeemable(Tick(run.states[k], elapsed), a) && Redeemable(Tick(run.states[k], elapsed), b)
    ensures a == b
  {
    hide Step;
    RunState(cfg, run, k);
    RunRotation(cfg, run.states[0], run.events[..k]);
  }

  /** The tokens minted for a session carry exactly the versions 1..tokenVersion, one each. */
  lemma MintedVersionsExact(cfg: Config, run: Run, k: nat, sid: SessionId, v: nat)
    requires IsRun(cfg, run) && k <= |run.events| && sid in run.states[k].store.rows
    ensures var store := run.states[k].store;
            && (HasToken(store.refreshMinted, sid, v) <==> 1 <= v <= store.rows[sid].tokenVersion)
            && OnePerVersion(store.refreshMinted)
  {
    hide Step;
    RunState(cfg, run, k);
    RunRotation(cfg, run.states[0], run.events[..k]);
    assert Complete(run.states[k].store, sid);
  }

  /** The token's session has moved past it, or is gone for good. */
  ghost predicate Spent(s: State, token: RefreshToken) {
    && token.sessionId < s.next
    && (token.sessionId in s.store.rows ==> token.tokenVersion < s.store.rows[token.sessionId].tokenVersion)
  }

  lemma AcceptanceSpends(cfg: Config, s: State, elapsed: nat, token: RefreshToken)
    requires Rotation(s.store, s.next) && AcceptsRefresh(cfg, s, elapsed, token)
    ensures Spent(Step(cfg, s, Event(elapsed, Refresh(token))).0, token)
  {
    hide Rotation;
    var t := Tick(s, elapsed);
    RowsBelow(s.store, s.next);
    RotatesShape(cfg, t, Refresh(token));
  }

  lemma SpentRefused(cfg: Config, s: State, elapsed: nat, token: RefreshToken)
    requires Spent(s, token)
    ensures !AcceptsRefresh(cfg, s, elapsed, token)
  {
    hide Rotate, RevokeRows;
  }

  /** Over any run each refresh token is accepted at most once. */
  lemma AcceptedAtMostOnce(cfg: Config, run: Run, i: nat, j: nat, token: RefreshToken)
    requires IsRun(cfg, run) && i < j < |run.events|
    requires run.events[i].request == Refresh(token) && run.events[j].request == Refresh(token)
    requires run.outcomes[i].Issued?
    ensures run.outcomes[j].Failed?
  {
    hide Step, Rotation, Evolves, Spent;
    RunState(cfg, run, i);
    RunState(cfg, run, i + 1);
    RunState(cfg, run, j);
    RunStep(cfg, run, i);
    RunStep(cfg, run, j);
    RunRotation(cfg, run.states[0], run.events[..i]);
    assert run.events[i] == Event(run.events[i].elapsed, Refresh(token)) && run.events[j] == Event(run.events[j].elapsed, Refresh(token));
    AcceptanceSpends(cfg, run.states[i], run.events[i].elapsed, token);
    RunEvolves(cfg, run.states[0], run.events, i + 1, j);
    SpentStays(run.states[i + 1], run.states[j], token);
    SpentRefused(cfg, run.states[j], run.events[j].elapsed, token);
    RefreshOutcome(cfg, run.states[j], run.events[j].elapsed, token);
  }

  lemma SpentStays(s: State, t: State, token: RefreshToken)
    requires Spent(s, token) && Evolves(s, t)
    ensures Spent(t, token)
  {
  }

  lemma RefreshOutcome(cfg: Config, s: State, elapsed: nat, token: RefreshToken)
    ensures var o := Step(cfg, s, Event(elapsed, Refresh(token))).1; o.Issued? || o.Failed?
  {
    hide RevokeRows;
  }

  // ------------------------------------------------------------------ replay

  /** A signed, unexpired token of an older version, presented while its session is live. */
  ghost predicate Replays(s: State, token: RefreshToken) {
    && VerifiesRefresh(s, token) && token.sessionId in s.store.rows
    && var row := s.store.rows[token.sessionId];
       row.userId == token.userId && Unrevoked(row) && !Expired(row, s.now) && token.tokenVersion != row.tokenVersion
  }

  lemma ReplayRevokes(cfg: Config, s: State, elapsed: nat, token: RefreshToken, sid: SessionId)
    requires Replays(Tick(s, elapsed), token) && sid in s.store.rows
    ensures var (t, outcome) := Step(cfg, s, Event(elapsed, Refresh(token)));
            && outcome == Failed(RefreshTokenReuse)
            && sid in t.store.rows
            && (if s.store.rows[sid].userId == token.userId && Unrevoked(s.store.rows[sid])
                then t.store.rows[sid] == s.store.rows[sid].(revokedAt := Some(t.now), revokedReason := Some(TokenReuse),
                                                             compromisedAt := Some(t.now))
                else t.store.rows[sid] == s.store.rows[sid])
            && NoneOpen(t.store.rows, token.userId)
  {
  }

  /** A replay revokes every unrevoked session of its user for token reuse, and changes no other row. */
  lemma ReplayClosesAccount(cfg: Config, run: Run, k: nat, token: RefreshToken, sid: SessionId)
    requires IsRun(cfg, run) && k < |run.events| && run.events[k].request == Refresh(token)
    requires Replays(Tick(run.states[k], run.events[k].elapsed), token) && sid in run.states[k].store.rows
    ensures run.outcomes[k] == Failed(RefreshTokenReuse)
    ensures sid in run.states[k + 1].store.rows
    ensures var (row, now) := (run.states[k].store.rows[sid], run.states[k + 1].now);
            run.states[k + 1].store.rows[sid] ==
              if row.userId == token.userId && Unrevoked(row)
              then row.(revokedAt := Some(now), revokedReason := Some(TokenReuse), compromisedAt := Some(now))
              else row
  {
    hide Step, Replays;
    RunStep(cfg, run, k);
    assert run.events[k] == Event(run.events[k].elapsed, Refresh(token));
    ReplayRevokes(cfg, run.states[k], run.events[k].elapsed, token, sid);
  }

  ghost predicate LogsIn(cfg: Config, s: State, e: Event, uid: UserId) {
    var t := Tick(s, e.elapsed);
    Opens(cfg, t, e.request) && FindByEmail(t.users, Text.Normalize(e.request.email)) == Some(uid)
  }

  /** A user with no open session gets one only by logging in. */
  lemma StepKeepsClosed(cfg: Config, s: State, e: Event, uid: UserId)
    requires NoneOpen(s.store.rows, uid) && Rotation(s.store, s.next) && !LogsIn(cfg, s, e, uid)
    ensures NoneOpen(Step(cfg, s, e).0.store.rows, uid)
  {
    hide Rotation, Step, Opens, Rotates, Admits, Text.Normalize;
    RowsBelow(s.store, s.next);
    StepShape(cfg, s, e);
    var t, r := Tick(s, e.elapsed), e.request;
    if Touches(t, r) {
      TouchKeepsClosed(cfg, t, TokenOf(r).sessionId, uid);
    }
  }

  lemma TouchKeepsClosed(cfg: Config, s: State, sid: SessionId, uid: UserId)
    requires NoneOpen(s.store.rows, uid)
    ensures NoneOpen(Touch(cfg, s, sid).store.rows, uid)
  {
  }

  lemma ClosedRefused(cfg: Config, s: State, e: Event, uid: UserId)
    requires NoneOpen(s.store.rows, uid)
    requires (e.request.Refresh? && e.request.refreshToken.userId == uid) || (Guarded(e.request) && TokenOf(e.request).userId == uid)
    ensures Step(cfg, s, e).1.Failed?
  {
    hide Rotate, RevokeRows, Handle, Touch;
  }

  /** After a replay nothing of that user's is accepted until a new login: no refresh, and no request
   *  behind the guard. */
  lemma NothingUntilLogin(cfg: Config, run: Run, i: nat, j: nat, token: RefreshToken)
    requires IsRun(cfg, run) && i < j < |run.events|
    requires run.events[i].request == Refresh(token) && Replays(Tick(run.states[i], run.events[i].elapsed), token)
    requires forall k: nat | i < k < j :: !LogsIn(cfg, run.states[k], run.events[k], token.userId)
    requires || (run.events[j].request.Refresh? && run.events[j].request.refreshToken.userId == token.userId)
             || (Guarded(run.events[j].request) && TokenOf(run.events[j].request).userId == token.userId)
    ensures run.outcomes[j].Failed?
  {
    hide Step, LogsIn, Replays;
    ClosedAfterReplay(cfg, run, i, j, token);
    RunStep(cfg, run, j);
    ClosedRefused(cfg, run.states[j], run.events[j], token.userId);
  }

  lemma {:induction false} ClosedAfterReplay(cfg: Config, run: Run, i: nat, j: nat, token: RefreshToken)
    requires IsRun(cfg, run) && i < j <= |run.events|
    requires run.events[i].request == Refresh(token) && Replays(Tick(run.states[i], run.events[i].elapsed), token)
    requires forall k: nat | i < k < j :: !LogsIn(cfg, run.states[k], run.events[k], token.userId)
    ensures NoneOpen(run.states[j].store.rows, token.userId)
    decreases j
  {
    hide Step, LogsIn, Rotation, NoneOpen, Initial;
    RunStep(cfg, run, j - 1);
    if i == j - 1 {
      assert run.events[i] == Event(run.events[i].elapsed, Refresh(token));
      ReplayedSession(Tick(run.states[i], run.events[i].elapsed), token);
      ReplayRevokes(cfg, run.states[i], run.events[i].elapsed, token, token.sessionId);
    } else {
      ClosedAfterReplay(cfg, run, i, j - 1, token);
      RunState(cfg, run, j - 1);
      RunRotation(cfg, run.states[0], run.events[..j - 1]);
      StepKeepsClosed(cfg, run.states[j - 1], run.events[j - 1], token.userId);
    }
  }

  lemma ReplayedSession(s: State, token: RefreshToken)
    requires Replays(s, token)
    ensures token.sessionId in s.store.rows
  {
  }

  /** Revocation is write-once: whatever happens later, a revoked row that still exists keeps the time,
   *  the reason and the compromise mark of its revocation. */
  lemma RevocationWrittenOnce(cfg: Config, run: Run, i: nat, j: nat, sid: SessionId)
    requires IsRun(cfg, run) && i <= j <= |run.events|
    requires sid in run.states[i].store.rows && !Unrevoked(run.states[i].store.rows[sid])
    requires sid in run.states[j].store.rows
    ensures var (a, b) := (run.states[i].store.rows[sid], run.states[j].store.rows[sid]);
            && a.revokedAt == b.revokedAt && a.revokedReason == b.revokedReason && a.compromisedAt == b.compromisedAt
  {
    hide Step, Rotation;
    RunState(cfg, run, i);
    RunState(cfg, run, j);
    RunEvolves(cfg, run.states[0], run.events, i, j);
    RunRotation(cfg, run.states[0], run.events[..i]);
    RowsBelow(run.states[i].store, run.states[i].next);
  }
}
