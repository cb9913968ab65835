/** A profile change with its avatar: resolving the reference against the stored files, and deleting the
 *  previous file. */
module ProfileAvatars {
  import opened Wrappers
  import opened AuthModel
  import opened Text
  import AuthEvolution
  import AuthOwners
  import AuthServices
  import AvatarReference
  import S = StoragePaths

  /** Where avatars are stored: the root by its segments, the configured base URL, the platform's parser. */
  datatype Storage = Storage(root: seq<string>, baseUrl: string, parse: AvatarReference.UrlParser)

  ghost predicate ValidStorage(storage: Storage) {
    S.Clean(storage.root) && storage.root != [] && AvatarReference.ValidParser(storage.parse)
  }

  predicate Stored(storage: Storage, files: S.Files, key: string) {
    S.ReadFile(files, S.Render(storage.root), key).Ok?
  }

  /** dto.avatar, resolved; a key outside the root makes the existence check throw, which rejects it too. */
  function Resolved(storage: Storage, files: S.Files, uid: UserId, idText: UserId -> string, avatar: Option<string>): Avatar {
    if avatar.None? then AvatarAbsent
    else AvatarReference.ResolveAvatarKey(storage.parse, storage.baseUrl, key => Stored(storage, files, key), idText(uid), avatar.value)
  }

  function AvatarOf(users: map<UserId, User>, uid: UserId): Option<string> {
    if uid in users then users[uid].avatarKey else None
  }

  /** The previous key that is deleted, if one is. */
  function Replaced(previous: Option<string>, next: Option<string>): Option<string> {
    if Truthy(previous) && previous != next then previous else None
  }

  function FilesAfter(storage: Storage, files: S.Files, previous: Option<string>, resolved: Avatar, outcome: Outcome): S.Files {
    if outcome == Done && resolved.AvatarKey? && Replaced(previous, resolved.key).Some?
    then S.DeleteFile(files, S.Render(storage.root), Replaced(previous, resolved.key).value)
    else files
  }

  /** Stored avatar keys lie under the root, so deleting one does not throw. */
  ghost predicate KeysInside(storage: Storage, users: map<UserId, User>) {
    forall id | id in users && Truthy(users[id].avatarKey) ::
      S.ResolvePath(S.Render(storage.root), users[id].avatarKey.value).Ok?
  }

  lemma ResolvedIsStored(storage: Storage, files: S.Files, uid: UserId, idText: UserId -> string, avatar: Option<string>)
    ensures var r := Resolved(storage, files, uid, idText, avatar);
            && (r.AvatarAbsent? <==> avatar.None?)
            && (r.AvatarKey? && r.key.Some? ==> r.key.value != "" && Stored(storage, files, r.key.value))
  {
    hide Trim, AvatarReference.NormalizeStorageKey, S.ReadFile;
  }

  lemma ProfileAvatarSaved(cfg: Config, s: State, token: AccessToken, change: ProfileChange, id: UserId)
    requires id in s.users
    ensures var (t, outcome) := DoUpdateProfile(cfg, s, token, change);
            && id in t.users
            && t.users[id].avatarKey == (if outcome == Done && id == token.userId && change.avatar.AvatarKey?
                                         then change.avatar.key else s.users[id].avatarKey)
            && (outcome == Done ==> token.userId in s.users)
  {
    hide RevokeRows, Lower, ConsumeOutstanding;
  }

  lemma ProfileUsers(cfg: Config, s: State, token: AccessToken, change: ProfileChange)
    ensures DoUpdateProfile(cfg, s, token, change).0.users.Keys == s.users.Keys
  {
    hide RevokeRows, Lower, ConsumeOutstanding;
  }

  /** Every profile change keeps stored avatar keys under the root. */
  lemma KeysStayInside(storage: Storage, cfg: Config, s: State, files: S.Files, token: AccessToken, idText: UserId -> string,
                       change: ProfileChange, avatar: Option<string>)
    requires KeysInside(storage, s.users)
    ensures var resolved := Resolved(storage, files, token.userId, idText, avatar);
            KeysInside(storage, DoUpdateProfile(cfg, s, token, change.(avatar := resolved)).0.users)
  {
    hide DoUpdateProfile, Resolved, S.ResolvePath, S.Render;
    var resolved := Resolved(storage, files, token.userId, idText, avatar);
    ResolvedIsStored(storage, files, token.userId, idText, avatar);
    ProfileUsers(cfg, s, token, change.(avatar := resolved));
    forall id | id in s.users
      ensures var t := DoUpdateProfile(cfg, s, token, change.(avatar := resolved)).0;
              id in t.users && (Truthy(t.users[id].avatarKey) ==> S.ResolvePath(S.Render(storage.root), t.users[id].avatarKey.value).Ok?)
    {
      ProfileAvatarSaved(cfg, s, token, change.(avatar := resolved), id);
    }
  }

  /** The file of the avatar is there, unless the previous key was another spelling of the same path. */
  ghost predicate AvatarKept(storage: Storage, files: S.Files, previous: Option<string>, key: string) {
    Stored(storage, files, key) <==>
      !(&& Truthy(previous) && previous.value != key
        && S.SegmentsUnder(storage.root, previous.value) == S.SegmentsUnder(storage.root, key))
  }

  /** After an accepted avatar change the file of the new avatar is there exactly when the previous key is
   *  not another spelling of the same path: deleting compares the keys, and the file system the paths. */
  lemma NewAvatarKeptExactly(storage: Storage, files: S.Files, previous: Option<string>, key: string)
    requires ValidStorage(storage) && Stored(storage, files, key)
    requires Truthy(previous) ==> S.ResolvePath(S.Render(storage.root), previous.value).Ok?
    ensures AvatarKept(storage, FilesAfter(storage, files, previous, AvatarKey(Some(key)), Done), previous, key)
  {
    hide S.ResolvePath, S.SegmentsUnder, S.Clean, S.Render, S.DeleteFile, S.PutFile;
    if Truthy(previous) && previous.value != key {
      S.PutThenRead(files, storage.root, previous.value, "", key);
    }
  }

  /** No other file is lost: what a key of another path reads as stays the same, whatever the outcome. */
  lemma OtherFilesKept(storage: Storage, files: S.Files, previous: Option<string>, resolved: Avatar, outcome: Outcome, other: string)
    requires ValidStorage(storage) && S.ResolvePath(S.Render(storage.root), other).Ok?
    requires Truthy(previous) ==> S.ResolvePath(S.Render(storage.root), previous.value).Ok?
    requires Truthy(previous) ==> S.SegmentsUnder(storage.root, previous.value) != S.SegmentsUnder(storage.root, other)
    ensures S.ReadFile(FilesAfter(storage, files, previous, resolved, outcome), S.Render(storage.root), other)
         == S.ReadFile(files, S.Render(storage.root), other)
  {
    hide S.ResolvePath, S.SegmentsUnder, S.Clean, S.Render, S.DeleteFile, S.PutFile, S.ReadFile;
    if Truthy(previous) {
      S.PutThenRead(files, storage.root, previous.value, "", other);
    }
  }

  /** The file of the previous avatar is gone exactly when an accepted change replaced its key, by another or
   *  by none; a change that is rejected, keeps the avatar or sends no avatar field leaves it. */
  lemma PreviousFileGoneExactly(storage: Storage, files: S.Files, previous: string, resolved: Avatar, outcome: Outcome)
    requires ValidStorage(storage) && previous != "" && S.ResolvePath(S.Render(storage.root), previous).Ok?
    ensures Stored(storage, FilesAfter(storage, files, Some(previous), resolved, outcome), previous) <==>
              Stored(storage, files, previous) && !(outcome == Done && resolved.AvatarKey? && resolved.key != Some(previous))
  {
    hide S.ResolvePath, S.SegmentsUnder, S.Clean, S.Render, S.DeleteFile, S.PutFile, S.ReadFile;
    S.PutThenRead(files, storage.root, previous, "", previous);
  }

  /** Two spellings of one path that a user may both name: the case in which the new avatar's file is lost. */
  lemma DotSpelling(root: seq<string>, userId: string, name: string)
    requires Without(userId, '\\') && Without(name, '\\') && name != ""
    ensures var (a, b) := (AvatarReference.OwnerPrefix(userId) + name, AvatarReference.OwnerPrefix(userId) + "./" + name);
            && a != b
            && AvatarReference.OwnerPrefix(userId) <= a && AvatarReference.OwnerPrefix(userId) <= b
            && S.SegmentsUnder(root, a) == S.SegmentsUnder(root, b)
  {
    hide S.Split, S.Fold, S.NormalizeKey;
    var front := "media/users/" + userId;
    var a, b := AvatarReference.OwnerPrefix(userId) + name, AvatarReference.OwnerPrefix(userId) + "./" + name;
    assert a == front + "/" + name && b == front + "/" + ("." + "/" + name);
    assert |a| != |b|;
    PlainKey(userId, name);
    PlainKey(userId, "./" + name);
    assert b == AvatarReference.OwnerPrefix(userId) + ("./" + name);
    S.SplitConcat(front, name);
    S.SplitConcat(front, "." + "/" + name);
    S.SplitConcat(".", name);
    S.SplitWord(".");
    S.FoldConcat(root, S.Split(front), S.Split(name));
    S.FoldConcat(root, S.Split(front), ["."] + S.Split(name));
    DotDoesNothing(S.Fold(root, S.Split(front)), S.Split(name));
  }

  /** The file of the new avatar can be lost: a user whose avatar is a sends the same path with a dot
   *  segment.  The reference resolves, and after the accepted change the file under the new key is gone,
   *  for every uploaded file and every base URL that is not a leading directory of the key. */
  lemma DotSpellingLosesFile(storage: Storage, files: S.Files, uid: UserId, idText: UserId -> string, name: string)
    requires ValidStorage(storage) && Without(idText(uid), '\\') && Without(name, '\\')
    requires name != "" && !IsSpace(name[|name| - 1])
    requires Stored(storage, files, AvatarReference.OwnerPrefix(idText(uid)) + name)
    requires !(S.TrimEndSlashes(storage.baseUrl) + "/" <= AvatarReference.OwnerPrefix(idText(uid)) + "./" + name)
    ensures var (a, b) := (AvatarReference.OwnerPrefix(idText(uid)) + name, AvatarReference.OwnerPrefix(idText(uid)) + "./" + name);
            && Resolved(storage, files, uid, idText, Some(b)) == AvatarKey(Some(b))
            && !Stored(storage, FilesAfter(storage, files, Some(a), AvatarKey(Some(b)), Done), b)
  {
    hide IsSpace, Trim, S.ResolvePath, S.SegmentsUnder, S.Clean, S.Render, S.DeleteFile, AvatarReference.OwnerPrefix, FilesAfter,
      AvatarReference.NormalizeStorageKey, AvatarReference.ResolveAvatarKey, AvatarReference.ValidParser;
    var owner := AvatarReference.OwnerPrefix(idText(uid));
    var a, b := owner + name, owner + "./" + name;
    assert b == owner + ("./" + name);
    DotSpelling(storage.root, idText(uid), name);
    SamePathStored(storage, files, a, b);
    AvatarReference.OwnerPrefixHead(idText(uid), "./" + name);
    assert b[|b| - 1] == name[|name| - 1];
    AvatarReference.UrlTrimmed("/", b);
    AvatarReference.KeyRoundTripExactly(storage.parse, storage.baseUrl, idText(uid), "./" + name);
    AvatarReference.ResolvesAsKey(storage.parse, storage.baseUrl, key => Stored(storage, files, key), idText(uid), b, b);
    NewAvatarKeptExactly(storage, files, Some(a), b);
  }

  /** What is stored under one spelling is stored under every other that is accepted, and all are. */
  lemma SamePathStored(storage: Storage, files: S.Files, a: string, b: string)
    requires S.Clean(storage.root) && storage.root != [] && Stored(storage, files, a)
    requires S.SegmentsUnder(storage.root, a) == S.SegmentsUnder(storage.root, b)
    ensures Stored(storage, files, b)
    ensures S.ResolvePath(S.Render(storage.root), a).Ok? && S.ResolvePath(S.Render(storage.root), b).Ok?
  {
    hide S.ResolvePath, S.SegmentsUnder, S.Clean, S.Render;
    S.AcceptsExactly(storage.root, a);
    S.AcceptsExactly(storage.root, b);
  }

  // ------------------------------------------------------------------ where the deleted file lies

  function OwnDirectory(root: seq<string>, userId: string): seq<string> { root + ["media", "users", userId] }

  /** The path that a profile change deletes is in the user's own directory exactly when the segments of
   *  the previous key lead there: the owner test compares texts, before dot segments are resolved. */
  lemma DeletesInOwnDirectoryExactly(storage: Storage, userId: string, previous: string)
    requires ValidStorage(storage) && S.Clean([userId])
    requires S.ResolvePath(S.Render(storage.root), previous).Ok?
    ensures var path := S.ResolvePath(S.Render(storage.root), previous).value;
            (path == S.Render(OwnDirectory(storage.root, userId)) || S.Render(OwnDirectory(storage.root, userId)) + "/" <= path)
            <==> OwnDirectory(storage.root, userId) <= S.SegmentsUnder(storage.root, previous)
  {
    hide S.ResolvePath, S.Render, S.SegmentsUnder, S.Resolve, S.NormalizeKey;
    var own, segments := OwnDirectory(storage.root, userId), S.SegmentsUnder(storage.root, previous);
    S.AcceptsExactly(storage.root, previous);
    S.ResolvesToSegments(storage.root, previous);
    OwnDirectoryClean(storage.root, userId);
    S.StartsWithRoot(own, segments);
    if S.Render(segments) == S.Render(own) {
      S.RenderInjective(segments, own);
    }
    if own <= segments && |own| == |segments| {
      assert own == segments;
    }
  }

  lemma OwnDirectoryClean(root: seq<string>, userId: string)
    requires S.Clean(root) && S.Clean([userId])
    ensures S.Clean(OwnDirectory(root, userId))
  {
    var own := OwnDirectory(root, userId);
    var tail := ["media", "users", userId];
    assert [userId][0] == userId;
    assert Without("media", '/') && Without("users", '/');
    assert |"media"| == 5 && |"users"| == 5;
    assert S.Clean(tail);
    assert forall i | 0 <= i < |own| :: own[i] == if i < |root| then root[i] else tail[i - |root|];
  }

  /** A plain key under the owner prefix leads into the user's own directory, one with ".." as its next
   *  segment into that of the user it names. */
  lemma OwnerPrefixLeads(root: seq<string>, userId: string, other: string, name: string)
    requires S.Clean([userId]) && S.Clean([other]) && S.Clean([name])
    requires Without(userId, '\\') && Without(other, '\\') && Without(name, '\\')
    ensures S.SegmentsUnder(root, AvatarReference.OwnerPrefix(userId) + name) == OwnDirectory(root, userId) + [name]
    ensures S.SegmentsUnder(root, AvatarReference.OwnerPrefix(userId) + "../" + other + "/" + name) == OwnDirectory(root, other) + [name]
  {
    hide S.Split, S.Fold, S.NormalizeKey;
    assert [userId][0] == userId && [other][0] == other && [name][0] == name;
    PlainKey(userId, name);
    var climb := "../" + other + "/" + name;
    assert Without(climb, '\\');
    PlainKey(userId, climb);
    assert AvatarReference.OwnerPrefix(userId) + climb == AvatarReference.OwnerPrefix(userId) + "../" + other + "/" + name;
    OwnerSegments(userId, name);
    OwnerSegments(userId, climb);
    S.SplitWord(name);
    S.SplitWord(other);
    S.SplitWord("..");
    assert climb == ".." + "/" + (other + "/" + name);
    S.SplitConcat("..", other + "/" + name);
    S.SplitConcat(other, name);
    assert [".."] + ([other] + [name]) == ["..", other, name];
    FoldPlain(root, userId, name);
    FoldClimb(root, userId, other, name);
  }

  lemma OwnerSegments(userId: string, rest: string)
    requires Without(userId, '/')
    ensures S.Split(AvatarReference.OwnerPrefix(userId) + rest) == ["media", "users", userId] + S.Split(rest)
  {
    hide S.Split;
    S.SplitWord("media");
    S.SplitWord("users");
    S.SplitWord(userId);
    S.SplitConcat("media", "users/" + userId + "/" + rest);
    S.SplitConcat("users", userId + "/" + rest);
    S.SplitConcat(userId, rest);
    assert AvatarReference.OwnerPrefix(userId) + rest == "media" + "/" + ("users/" + userId + "/" + rest);
    assert "users/" + userId + "/" + rest == "users" + "/" + (userId + "/" + rest);
    assert ["media"] + (["users"] + ([userId] + S.Split(rest))) == ["media", "users", userId] + S.Split(rest);
  }

  lemma FoldPlain(root: seq<string>, userId: string, name: string)
    requires S.Clean([userId]) && S.Clean([name])
    ensures S.Fold(root, ["media", "users", userId] + [name]) == OwnDirectory(root, userId) + [name]
  {
    hide S.Fold;
    OwnDirectoryClean([], userId);
    assert [] + ["media", "users", userId] == ["media", "users", userId];
    S.FoldConcat(root, ["media", "users", userId], [name]);
    S.FoldAppends(root, ["media", "users", userId]);
    S.FoldAppends(OwnDirectory(root, userId), [name]);
  }

  lemma FoldClimb(root: seq<string>, userId: string, other: string, name: string)
    requires S.Clean([userId]) && S.Clean([other]) && S.Clean([name])
    ensures S.Fold(root, ["media", "users", userId] + ["..", other, name]) == OwnDirectory(root, other) + [name]
  {
    hide S.Fold, S.Clean;
    EmptyClean();
    OwnDirectoryClean([], userId);
    var own := OwnDirectory(root, userId);
    assert [] + ["media", "users", userId] == ["media", "users", userId];
    S.FoldConcat(root, ["media", "users", userId], ["..", other, name]);
    S.FoldAppends(root, ["media", "users", userId]);
    UpOnce(own, [other, name]);
    assert ["..", other, name] == [".."] + [other, name];
    assert own[..|own| - 1] == root + ["media", "users"];
    PairClean(other, name);
    S.FoldAppends(root + ["media", "users"], [other, name]);
    assert root + ["media", "users"] + [other, name] == OwnDirectory(root, other) + [name];
  }

  lemma EmptyClean()
    ensures S.Clean([])
  {
  }

  lemma PairClean(a: string, b: string)
    requires S.Clean([a]) && S.Clean([b])
    ensures S.Clean([a, b])
  {
    assert [a][0] == a && [b][0] == b;
  }

  lemma UpOnce(done: seq<string>, segments: seq<string>)
    requires done != []
    ensures S.Fold(done, [".."] + segments) == S.Fold(done[..|done| - 1], segments)
  {
    assert ([".."] + segments)[1..] == segments;
  }

  lemma DotDoesNothing(done: seq<string>, segments: seq<string>)
    ensures S.Fold(done, ["."] + segments) == S.Fold(done, segments)
  {
    assert (["."] + segments)[1..] == segments;
  }

  lemma PlainKey(userId: string, rest: string)
    requires Without(userId, '\\') && Without(rest, '\\')
    ensures S.NormalizeKey(AvatarReference.OwnerPrefix(userId) + rest) == AvatarReference.OwnerPrefix(userId) + rest
  {
    AvatarReference.ForwardSlashesConcat(AvatarReference.OwnerPrefix(userId), rest);
    AvatarReference.OwnerPrefixPlain(userId);
    S.ForwardSlashesDone(rest);
    AvatarReference.OwnerPrefixHead(userId, rest);
  }

  // ------------------------------------------------------------------ the other requests

  ghost predicate SameAvatars(a: map<UserId, User>, b: map<UserId, User>) {
    forall id | id in b :: b[id].avatarKey == AvatarOf(a, id)
  }

  lemma PublicKeepsAvatars(cfg: Config, s: State, r: Request)
    requires !Guarded(r)
    ensures SameAvatars(s.users, Serve(cfg, s, r).0.users)
  {
    hide RevokeRows, ConsumeOutstanding, Normalize, Rotate, OpenSession, DoRefresh;
    if r.Refresh? {
      AuthEvolution.RefreshFrame(cfg, s, r.refreshToken);
    } else if r.Login? {
      LoginKeepsAvatars(cfg, s, r.email, r.password);
    }
  }

  lemma LoginKeepsAvatars(cfg: Config, s: State, email: string, password: string)
    ensures SameAvatars(s.users, DoLogin(cfg, s, email, password).0.users)
  {
    hide Normalize;
  }

  lemma UpdateKeepsAvatars(s: State, id: UserId, change: UserChange)
    ensures SameAvatars(s.users, DoUpdateUser(s, id, change).0.users)
  {
    hide RevokedByUpdate, Normalize, FindByEmail;
  }

  lemma AdminKeepsAvatars(cfg: Config, s: State, token: AccessToken, id: UserId, newUser: NewUser)
    requires s.next !in s.users
    ensures SameAvatars(s.users, DoCreateUser(s, newUser).0.users)
    ensures SameAvatars(s.users, DoRemoveUser(s, token, id).0.users)
    ensures SameAvatars(s.users, DoResendVerification(cfg, s, id).0.users)
  {
    hide RevokeUserRows, ConsumeOutstanding, Normalize, FindByEmail;
  }

  lemma HandleKeepsAvatars(cfg: Config, s: State, r: Request)
    requires Guarded(r) && !r.UpdateProfile? && s.next !in s.users
    ensures SameAvatars(s.users, Handle(cfg, s, r).0.users)
  {
    hide RevokeRow, RevokeRows, DoCreateUser, DoRemoveUser, DoResendVerification, DoUpdateUser;
    match r
    case ResendVerification(token) => AdminKeepsAvatars(cfg, s, token, token.userId, NewUser("", "", None, true, true));
    case CreateUser(token, newUser) => AdminKeepsAvatars(cfg, s, token, 0, newUser);
    case RemoveUser(token, id) => AdminKeepsAvatars(cfg, s, token, id, NewUser("", "", None, true, true));
    case UpdateUser(token, id, change) => UpdateKeepsAvatars(s, id, change);
    case _ =>
  }

  /** No request but a profile change sets an avatar, so every other one keeps stored keys under the root. */
  lemma OthersKeepKeysInside(storage: Storage, cfg: Config, s: State, e: Event)
    requires KeysInside(storage, s.users) && !e.request.UpdateProfile? && s.next !in s.users
    ensures KeysInside(storage, Step(cfg, s, e).0.users)
  {
    hide Handle, Serve, Admits, Touch, S.ResolvePath, S.Render;
    var t, r := Tick(s, e.elapsed), e.request;
    if !Guarded(r) {
      PublicKeepsAvatars(cfg, t, r);
    } else {
      GuardedServe(cfg, t, r);
      AuthEvolution.TouchFrame(cfg, t, TokenOf(r).sessionId);
      HandleKeepsAvatars(cfg, Touch(cfg, t, TokenOf(r).sessionId), r);
    }
  }

  lemma GuardedServe(cfg: Config, s: State, r: Request)
    requires Guarded(r)
    ensures Serve(cfg, s, r).0 == if Admits(s, TokenOf(r)) then Handle(cfg, Touch(cfg, s, TokenOf(r).sessionId), r).0 else s
  {
    hide Handle, Admits, Touch;
  }

  /** The avatar of every profile change among the first k events was resolved against files stored then. */
  ghost predicate AvatarsResolved(storage: Storage, idText: UserId -> string, run: Run, files: seq<S.Files>, k: nat)
    requires k <= |run.events| && |run.events| <= |files|
  {
    forall i: nat | i < k && run.events[i].request.UpdateProfile? ::
      exists avatar :: run.events[i].request.change.avatar == Resolved(storage, files[i], run.events[i].request.token.userId, idText, avatar)
  }

  /** Over every run that starts with stored avatar keys under the root, whatever files come and go, they
   *  stay there, so deleting a previous avatar never throws. */
  lemma {:induction false} KeysInsideRun(storage: Storage, idText: UserId -> string, cfg: Config, run: Run, files: seq<S.Files>, k: nat)
    requires IsRun(cfg, run) && k <= |run.events| && |run.events| <= |files|
    requires KeysInside(storage, run.states[0].users) && AvatarsResolved(storage, idText, run, files, k)
    ensures KeysInside(storage, run.states[k].users)
    decreases k
  {
    hide Step, Initial, KeysInside, Resolved, AuthOwners.Sound;
    if k > 0 {
      KeysInsideRun(storage, idText, cfg, run, files, k - 1);
      RunStep(cfg, run, k - 1);
      var s, e := run.states[k - 1], run.events[k - 1];
      if e.request.UpdateProfile? {
        var avatar :| e.request.change.avatar == Resolved(storage, files[k - 1], e.request.token.userId, idText, avatar);
        ProfileKeepsKeysInside(storage, idText, cfg, s, files[k - 1], e, avatar);
      } else {
        RunState(cfg, run, k - 1);
        AuthOwners.RunSound(cfg, run.states[0], run.events[..k - 1]);
        NextIsFree(s);
        OthersKeepKeysInside(storage, cfg, s, e);
      }
    }
  }

  lemma NextIsFree(s: State)
    requires AuthOwners.Sound(s)
    ensures s.next !in s.users
  {
  }

  lemma ProfileKeepsKeysInside(storage: Storage, idText: UserId -> string, cfg: Config, s: State, files: S.Files, e: Event, avatar: Option<string>)
    requires KeysInside(storage, s.users) && e.request.UpdateProfile?
    requires e.request.change.avatar == Resolved(storage, files, e.request.token.userId, idText, avatar)
    ensures KeysInside(storage, Step(cfg, s, e).0.users)
  {
    hide Handle, Admits, Touch, KeysInside, DoUpdateProfile, Resolved;
    var t, r := Tick(s, e.elapsed), e.request;
    GuardedServe(cfg, t, r);
    AuthEvolution.TouchFrame(cfg, t, r.token.sessionId);
    var touched := Touch(cfg, t, r.token.sessionId);
    KeysStayInside(storage, cfg, touched, files, r.token, idText, r.change, avatar);
    assert r.change.(avatar := r.change.avatar) == r.change;
    HandleProfile(cfg, touched, r);
  }

  lemma HandleProfile(cfg: Config, s: State, r: Request)
    requires r.UpdateProfile?
    ensures Handle(cfg, s, r) == DoUpdateProfile(cfg, s, r.token, r.change)
  {
    hide DoUpdateProfile;
  }

  // ------------------------------------------------------------------ the service

  lemma PreviousInside(storage: Storage, users: map<UserId, User>, uid: UserId)
    requires KeysInside(storage, users)
    ensures Truthy(AvatarOf(users, uid)) ==> S.ResolvePath(S.Render(storage.root), AvatarOf(users, uid).value).Ok?
  {
    hide S.ResolvePath, S.Render;
  }

  lemma FilesAfterMeans(storage: Storage, files: S.Files, previous: Option<string>, resolved: Avatar, outcome: Outcome)
    ensures FilesAfter(storage, files, previous, resolved, outcome) ==
            if outcome == Done && resolved.AvatarKey? && Truthy(previous) && previous != resolved.key
            then S.DeleteFile(files, S.Render(storage.root), previous.value) else files
  {
  }

  lemma ProfileDone(cfg: Config, s: State, token: AccessToken, change: ProfileChange)
    requires DoUpdateProfile(cfg, s, token, change).1 == Done
    ensures token.userId in s.users && token.userId in DoUpdateProfile(cfg, s, token, change).0.users
    ensures change.avatar.AvatarKey? ==> DoUpdateProfile(cfg, s, token, change).0.users[token.userId].avatarKey == change.avatar.key
    ensures !change.avatar.AvatarRejected?
  {
    hide RevokeRows, Lower, ConsumeOutstanding;
  }

  class ProfileService {
    const account: AuthServices.AccountService
    const driver: S.LocalStorageDriver
    const storage: Storage
    const idText: UserId -> string

    ghost predicate Valid()
      reads account.db
    {
      && account.Wired() && account.db.Valid()
      && ValidStorage(storage) && driver.rootDirectory == S.Render(storage.root)
      && KeysInside(storage, account.db.users)
    }

    constructor (account: AuthServices.AccountService, driver: S.LocalStorageDriver, storage: Storage, idText: UserId -> string)
      ensures this.account == account && this.driver == driver && this.storage == storage && this.idText == idText
    {
      this.account, this.driver, this.storage, this.idText := account, driver, storage, idText;
    }

    /** AccountService.updateProfile with the avatar as it is sent. */
    method UpdateProfile(token: AccessToken, change: ProfileChange, avatar: Option<string>) returns (outcome: Outcome)
      requires Valid()
      modifies account.db, driver`files
      ensures Valid()
      ensures var resolved := Resolved(storage, old(driver.files), token.userId, idText, avatar);
              && (account.db.Contents(), outcome) ==
                   DoUpdateProfile(account.db.cfg, old(account.db.Contents()), token, change.(avatar := resolved))
              && driver.files == FilesAfter(storage, old(driver.files), AvatarOf(old(account.db.users), token.userId), resolved, outcome)
      ensures outcome == Done && avatar.Some? ==> token.userId in account.db.users
      ensures outcome == Done && avatar.Some? && account.db.users[token.userId].avatarKey.Some? ==>
        AvatarKept(storage, driver.files, AvatarOf(old(account.db.users), token.userId), account.db.users[token.userId].avatarKey.value)
    {
      hide DoUpdateProfile, Resolved, FilesAfter, S.ResolvePath, S.DeleteFile, ValidStorage, S.SegmentsUnder, S.Render, KeysInside,
        AuthServices.AuthDatabase.Valid;
      ghost var before, files := account.db.Contents(), driver.files;
      var resolved := Resolved(storage, driver.files, token.userId, idText, avatar);
      var previous := AvatarOf(account.db.users, token.userId);
      PreviousInside(storage, account.db.users, token.userId);
      ResolvedIsStored(storage, driver.files, token.userId, idText, avatar);
      KeysStayInside(storage, account.db.cfg, before, files, token, idText, change, avatar);
      outcome := account.UpdateProfile(token, change.(avatar := resolved));
      FilesAfterMeans(storage, files, previous, resolved, outcome);
      if outcome == Done {
        ProfileDone(account.db.cfg, before, token, change.(avatar := resolved));
        if resolved.AvatarKey? && Truthy(previous) && previous != resolved.key {
          var _ := driver.Delete(previous.value);
        }
        if resolved.AvatarKey? && resolved.key.Some? {
          NewAvatarKeptExactly(storage, files, previous, resolved.key.value);
        }
      }
    }
  }
}
