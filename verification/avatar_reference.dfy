/** Avatar references: what an upload returns, and what a profile change makes of it. */
module AvatarReference {
  import opened Wrappers
  import opened Text
  import opened StoragePaths
  import AuthModel

  type UrlParser = string -> Option<string>

  /** The first slash comes before any colon, so there is no scheme, whatever a URL parser strips. */
  ghost predicate SlashFirst(value: string) {
    exists i | 0 <= i < |value| :: value[i] == '/' && forall j | 0 <= j < i :: value[j] != ':'
  }

  /** `new URL(value).pathname`; the one fact used is that such a value is not parsed. */
  ghost predicate ValidParser(parse: UrlParser) {
    forall value :: SlashFirst(value) ==> parse(value).None?
  }

  // ------------------------------------------------------------------ upload

  /** folder?.trim() without leading and trailing slashes, or 'uploads'. */
  function Folder(folder: Option<string>): string {
    var f := if folder.Some? then TrimEndSlashes(StripSlashes(Trim(folder.value))) else "";
    if f == "" then "uploads" else f
  }

  function OwnerPrefix(userId: string): string { "media/users/" + userId + "/" }

  /** `name` is the random UUID with the extension of the uploaded file. */
  function UploadKey(userId: string, folder: Option<string>, name: string): string {
    OwnerPrefix(userId) + Folder(folder) + "/" + name
  }

  // ------------------------------------------------------------------ profile change

  function NormalizeStorageKey(parse: UrlParser, baseUrl: string, value: string): Option<string> {
    var localBaseUrl := TrimEndSlashes(baseUrl);
    var pathname := parse(value);
    var candidate := if pathname.Some? then pathname.value else value;
    if localBaseUrl + "/" <= candidate then Some(candidate[|localBaseUrl| + 1..])
    else
      var stripped := StripSlashes(candidate);
      if stripped == "" then None else Some(stripped)
  }

  function ResolveAvatarKey(parse: UrlParser, baseUrl: string, stored: string -> bool, userId: string, avatar: string): AuthModel.Avatar {
    var normalizedAvatar := Trim(avatar);
    if normalizedAvatar == "" then AuthModel.AvatarKey(None)
    else
      var resolvedKey := NormalizeStorageKey(parse, baseUrl, normalizedAvatar);
      if resolvedKey.None? || resolvedKey.value == "" then AuthModel.AvatarRejected
      else if !(OwnerPrefix(userId) <= resolvedKey.value) then AuthModel.AvatarRejected
      else if !stored(resolvedKey.value) then AuthModel.AvatarRejected
      else AuthModel.AvatarKey(resolvedKey)
  }

  // ------------------------------------------------------------------ the stored key

  /** A user id is a UUID: no slash and no backslash.  A file name is not empty and does not end in space. */
  ghost predicate PlainUpload(userId: string, name: string) {
    Without(userId, '/') && Without(userId, '\\') && name != "" && !IsSpace(name[|name| - 1])
  }

  lemma ForwardSlashesConcat(a: string, b: string)
    ensures ForwardSlashes(a + b) == ForwardSlashes(a) + ForwardSlashes(b)
  {
  }

  /** A folder name without slashes or spaces at its ends is kept, with any around it dropped; no folder, or
   *  a blank one, means uploads. */
  lemma FolderMeans(before: string, folder: string, after: string)
    requires Blank(before) && Blank(after) && folder != ""
    requires Trimmed(folder) && folder[0] != '/' && folder[|folder| - 1] != '/'
    ensures Folder(Some(before + folder + after)) == folder
    ensures Folder(Some(before + ("/" + folder + "/") + after)) == folder
    ensures Folder(None) == "uploads" && Folder(Some(before)) == "uploads"
  {
    hide IsSpace, Trim, Blank;
    var slashed := "/" + folder + "/";
    SlashIsNoSpace();
    TrimIsTrimmed(folder);
    TrimIsTrimmed(slashed);
    TrimIgnoresSpaces(before, folder, after);
    TrimIgnoresSpaces(before, slashed, after);
    BlankExactly(before);
    assert slashed[1..] == folder + "/" && (folder + "/")[..|folder|] == folder;
    assert StripSlashes(slashed) == folder + "/";
  }

  /** The key that the storage driver reports keeps the owner prefix and the last character. */
  lemma StoredKey(userId: string, folder: Option<string>, name: string) returns (rest: string)
    requires PlainUpload(userId, name)
    ensures var k := NormalizeKey(UploadKey(userId, folder, name));
            k == OwnerPrefix(userId) + rest && rest != "" && !IsSpace(rest[|rest| - 1])
  {
    hide Folder, Trim, IsSpace;
    var tail := Folder(folder) + "/" + name;
    assert UploadKey(userId, folder, name) == OwnerPrefix(userId) + tail;
    ForwardSlashesConcat(OwnerPrefix(userId), tail);
    OwnerPrefixPlain(userId);
    rest := ForwardSlashes(tail);
    assert tail[|tail| - 1] == name[|name| - 1];
    SlashIsNoSpace();
    assert (OwnerPrefix(userId) + rest)[0] == 'm';
  }

  lemma OwnerPrefixPlain(userId: string)
    requires Without(userId, '\\')
    ensures ForwardSlashes(OwnerPrefix(userId)) == OwnerPrefix(userId)
  {
    ForwardSlashesConcat("media/users/" + userId, "/");
    ForwardSlashesConcat("media/users/", userId);
    ForwardSlashesDone(userId);
  }

  lemma SlashIsNoSpace()
    ensures !IsSpace('/') && !IsSpace('m')
  {
  }

  lemma OwnerPrefixHead(userId: string, rest: string)
    ensures var k := OwnerPrefix(userId) + rest;
            |k| > 5 && k[0] == 'm' && k[1] == 'e' && k[2] == 'd' && k[3] == 'i' && k[4] == 'a' && k[5] == '/'
  {
  }

  /** A key passes the owner test for the user whose id it was stored under, and for nobody else. */
  lemma OwnedByOne(userId: string, rest: string, other: string)
    requires Without(userId, '/') && Without(other, '/')
    ensures OwnerPrefix(other) <= OwnerPrefix(userId) + rest <==> other == userId
  {
    var head := "media/users/";
    var k := OwnerPrefix(userId) + rest;
    assert k == head + (userId + ['/'] + rest);
    if OwnerPrefix(other) <= k {
      var t := k[|OwnerPrefix(other)|..];
      assert k == head + (other + ['/'] + t);
      assert k[|head|..] == userId + ['/'] + rest && k[|head|..] == other + ['/'] + t;
      SplitUnique('/', userId, rest, other, t);
    }
  }

  // ------------------------------------------------------------------ round trips

  /** A stored key is read as itself exactly when the configured base URL, without its trailing slashes,
   *  is not a leading directory of it. */
  lemma KeyRoundTripExactly(parse: UrlParser, baseUrl: string, userId: string, rest: string)
    requires ValidParser(parse)
    ensures var k := OwnerPrefix(userId) + rest;
            NormalizeStorageKey(parse, baseUrl, k) == Some(k) <==> !(TrimEndSlashes(baseUrl) + "/" <= k)
  {
    var k := OwnerPrefix(userId) + rest;
    OwnerPrefixHead(userId, rest);
    assert k[5] == '/' && SlashFirst(k);
  }

  lemma SlashesOnly(baseUrl: string)
    requires NormalizeBaseUrl(baseUrl) == "/"
    ensures forall i | 0 <= i < |baseUrl| :: baseUrl[i] == '/' || IsSpace(baseUrl[i])
  {
    hide IsSpace, Trim;
    var t := Trim(baseUrl);
    var u := TrimEndSlashes(t);
    assert u == "";
    TrimDropsSpaces(baseUrl);
    assert forall i | 0 <= i < |t| :: t[i] == '/';
  }

  /** A base URL that is only slashes and spaces, but does not end in a slash, is no prefix of a URL. */
  lemma NoPrefixOfDoubleSlash(baseUrl: string, userId: string, rest: string)
    requires NormalizeBaseUrl(baseUrl) == "/" && TrimEndSlashes(baseUrl) != ""
    ensures !(TrimEndSlashes(baseUrl) + "/" <= "//" + (OwnerPrefix(userId) + rest))
  {
    hide IsSpace, Trim, NormalizeBaseUrl, OwnerPrefix;
    SlashesOnly(baseUrl);
    SlashIsNoSpace();
    OwnerPrefixHead(userId, rest);
    var local, url := TrimEndSlashes(baseUrl), "//" + (OwnerPrefix(userId) + rest);
    assert url[0] == '/' && url[1] == '/' && url[2] == 'm';
    var last := |local| - 1;
    if last >= 2 {
      assert local[2] == baseUrl[2];
      assert (local + "/")[2] != url[2];
    } else {
      assert (local + "/")[last] != url[last];
    }
  }

  lemma BaseUrlShape(baseUrl: string)
    ensures var base := NormalizeBaseUrl(baseUrl); base != "" && base[0] == '/' && (base == "/" || base[|base| - 1] != '/')
  {
    hide Trim, IsSpace;
  }

  lemma StripConcat(base: string, k: string)
    requires base != "" && (base == "/" || base[|base| - 1] != '/') && k != "" && k[0] != '/'
    ensures StripSlashes(base + "/" + k) == k <==> base == "/"
  {
    if base == "/" {
      StripWhere("//", k);
      assert base + "/" + k == "//" + k;
    } else {
      StripShorter(base + "/" + k, |base| - 1);
    }
  }

  /** Stripping stops before a character that is no slash. */
  lemma {:induction false} StripShorter(s: string, i: nat)
    requires i < |s| && s[i] != '/'
    ensures |StripSlashes(s)| >= |s| - i
  {
    if s[0] == '/' {
      StripShorter(s[1..], i - 1);
    }
  }

  /** The URL of a stored key is read back as the key exactly when the base URL is not just slashes and
   *  either needs no normalisation beyond its trailing slashes or is blank up to slashes. */
  lemma UrlRoundTripExactly(parse: UrlParser, baseUrl: string, userId: string, rest: string)
    requires ValidParser(parse)
    ensures var k, local, base := OwnerPrefix(userId) + rest, TrimEndSlashes(baseUrl), NormalizeBaseUrl(baseUrl);
            (NormalizeStorageKey(parse, baseUrl, base + "/" + k) == Some(k))
            <==> (local != "" && (base == local || base == "/"))
  {
    hide Trim, IsSpace, NormalizeBaseUrl, OwnerPrefix, StripSlashes, TrimEndSlashes;
    var k, local, base := OwnerPrefix(userId) + rest, TrimEndSlashes(baseUrl), NormalizeBaseUrl(baseUrl);
    var url := base + "/" + k;
    OwnerPrefixHead(userId, rest);
    BaseUrlShape(baseUrl);
    assert url[0] == '/';
    assert SlashFirst(url);
    StripConcat(base, k);
    if base == "/" {
      assert url == "//" + k;
      if local != "" {
        NoPrefixOfDoubleSlash(baseUrl, userId, rest);
      } else {
        assert url[1..] == "/" + k;
      }
    } else if local + "/" <= url {
      PrefixReads(local, base, k);
    } else {
      assert local != base;
    }
  }

  lemma PrefixReads(local: string, base: string, k: string)
    requires local + "/" <= base + "/" + k && base != "" && base != "/" && base[0] == '/'
    ensures (base + "/" + k)[|local| + 1..] == k <==> local == base
    ensures local == "" ==> local != base
  {
    var url := base + "/" + k;
    if local == base {
      assert url[|local| + 1..] == k;
    }
    if |local| == |base| {
      assert local == url[..|local|] && base == url[..|base|];
    }
  }

  /** What a reference that is read as a given key resolves to. */
  lemma ResolvesAsKey(parse: UrlParser, baseUrl: string, stored: string -> bool, userId: string, avatar: string, k: string)
    requires Trim(avatar) == avatar && avatar != "" && k != ""
    requires NormalizeStorageKey(parse, baseUrl, avatar) == Some(k)
    ensures ResolveAvatarKey(parse, baseUrl, stored, userId, avatar)
         == if OwnerPrefix(userId) <= k && stored(k) then AuthModel.AvatarKey(Some(k)) else AuthModel.AvatarRejected
  {
    hide Trim, NormalizeStorageKey, OwnerPrefix;
  }

  /** A base URL that needs no normalisation beyond its trailing slashes. */
  lemma PlainBaseUrl(baseUrl: string)
    requires baseUrl != "" && baseUrl[0] == '/' && Trim(baseUrl) == baseUrl && TrimEndSlashes(baseUrl) != ""
    ensures NormalizeBaseUrl(baseUrl) == TrimEndSlashes(baseUrl) && TrimEndSlashes(baseUrl)[0] == '/'
  {
    hide Trim;
  }

  lemma UrlTrimmed(base: string, k: string)
    requires base != "" && base[0] == '/' && k != "" && k[0] == 'm' && !IsSpace(k[|k| - 1])
    ensures Trim(k) == k && Trim(base + "/" + k) == base + "/" + k
  {
    hide IsSpace, Trim;
    SlashIsNoSpace();
    var url := base + "/" + k;
    assert url[0] == '/' && url[|url| - 1] == k[|k| - 1];
    TrimIsTrimmed(k);
    TrimIsTrimmed(url);
  }

  /** For a base URL that starts with a slash, has no surrounding white space and is not just slashes,
   *  both the key and the URL that an upload returns are accepted as the uploader's avatar and stored as
   *  the key, and neither is accepted from any other user. */
  lemma UploadedAvatarAccepted(parse: UrlParser, baseUrl: string, stored: string -> bool,
                               userId: string, folder: Option<string>, name: string, other: string)
    requires ValidParser(parse) && PlainUpload(userId, name) && Without(other, '/') && other != userId
    requires baseUrl != "" && baseUrl[0] == '/' && Trim(baseUrl) == baseUrl && TrimEndSlashes(baseUrl) != ""
    ensures var key := UploadKey(userId, folder, name);
            var k, url := NormalizeKey(key), Url(baseUrl, key);
            stored(k) ==>
            && ResolveAvatarKey(parse, baseUrl, stored, userId, k) == AuthModel.AvatarKey(Some(k))
            && ResolveAvatarKey(parse, baseUrl, stored, userId, url) == AuthModel.AvatarKey(Some(k))
            && ResolveAvatarKey(parse, baseUrl, stored, other, k) == AuthModel.AvatarRejected
            && ResolveAvatarKey(parse, baseUrl, stored, other, url) == AuthModel.AvatarRejected
  {
    hide Trim, IsSpace, UploadKey, NormalizeKey, NormalizeStorageKey, OwnerPrefix, TrimEndSlashes, NormalizeBaseUrl, ResolveAvatarKey;
    var rest := StoredKey(userId, folder, name);
    var key := UploadKey(userId, folder, name);
    var k, url := NormalizeKey(key), Url(baseUrl, key);
    var local := TrimEndSlashes(baseUrl);
    PlainBaseUrl(baseUrl);
    OwnerPrefixHead(userId, rest);
    assert (local + "/")[0] == '/';
    KeyRoundTripExactly(parse, baseUrl, userId, rest);
    UrlRoundTripExactly(parse, baseUrl, userId, rest);
    OwnedByOne(userId, rest, userId);
    OwnedByOne(userId, rest, other);
    assert k[|k| - 1] == rest[|rest| - 1];
    UrlTrimmed(local, k);
    ResolvesAsKey(parse, baseUrl, stored, userId, k, k);
    ResolvesAsKey(parse, baseUrl, stored, userId, url, k);
    ResolvesAsKey(parse, baseUrl, stored, other, k, k);
    ResolvesAsKey(parse, baseUrl, stored, other, url, k);
  }

  // ------------------------------------------------------------------ every answer of a reference

  /** A blank reference clears the avatar, and nothing else does; spaces around one do not matter; what is
   *  accepted is a stored file under the user's own prefix. */
  lemma ReferenceAnswers(parse: UrlParser, baseUrl: string, stored: string -> bool, userId: string, before: string, avatar: string, after: string)
    requires Blank(before) && Blank(after)
    ensures var r := ResolveAvatarKey(parse, baseUrl, stored, userId, avatar);
            && (r == AuthModel.AvatarKey(None) <==> Blank(avatar))
            && (r.AvatarKey? && r.key.Some? ==> OwnerPrefix(userId) <= r.key.value && stored(r.key.value))
            && (r.AvatarKey? || r.AvatarRejected?)
            && ResolveAvatarKey(parse, baseUrl, stored, userId, before + avatar + after) == r
  {
    hide Trim, IsSpace, NormalizeStorageKey;
    BlankExactly(avatar);
    TrimIgnoresSpaces(before, avatar, after);
  }
}
