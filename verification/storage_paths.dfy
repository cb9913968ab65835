/** Keys of the local storage driver and the paths they resolve to (POSIX: the separator is '/'). */
module StoragePaths {
  import opened Text

  // ------------------------------------------------------------------ segments

  /** The segments of a path, split at every slash. */
  function Split(s: string): (r: seq<string>)
    ensures |r| >= 1 && forall i | 0 <= i < |r| :: Without(r[i], '/')
  {
    if s == "" then [""]
    else
      var r := Split(s[1..]);
      if s[0] == '/' then [""] + r else [[s[0]] + r[0]] + r[1..]
  }

  function Join(segments: seq<string>): string {
    if segments == [] then ""
    else if |segments| == 1 then segments[0]
    else segments[0] + "/" + Join(segments[1..])
  }

  ghost predicate SlashFree(segments: seq<string>) { forall i | 0 <= i < |segments| :: Without(segments[i], '/') }

  /** Segments of a normalised path. */
  ghost predicate Clean(segments: seq<string>) {
    SlashFree(segments) && forall i | 0 <= i < |segments| :: segments[i] != "" && segments[i] != "." && segments[i] != ".."
  }

  lemma {:induction false} SplitConcat(a: string, b: string)
    ensures Split(a + "/" + b) == Split(a) + Split(b)
  {
    var s := a + "/" + b;
    if a == "" {
      assert s[1..] == b;
    } else {
      assert s[1..] == a[1..] + "/" + b;
      SplitConcat(a[1..], b);
    }
  }

  lemma {:induction false} SplitWord(s: string)
    requires Without(s, '/')
    ensures Split(s) == [s]
  {
    if s != "" {
      SplitWord(s[1..]);
      assert [s[0]] + s[1..] == s;
    }
  }

  lemma {:induction false} SplitJoin(segments: seq<string>)
    requires segments != [] && SlashFree(segments)
    ensures Split(Join(segments)) == segments
  {
    SplitWord(segments[0]);
    if |segments| > 1 {
      SplitJoin(segments[1..]);
      SplitConcat(segments[0], Join(segments[1..]));
    }
  }

  lemma {:induction false} JoinConcat(a: seq<string>, b: seq<string>)
    requires a != [] && b != []
    ensures Join(a + b) == Join(a) + "/" + Join(b)
  {
    if |a| > 1 {
      assert (a + b)[1..] == a[1..] + b;
      JoinConcat(a[1..], b);
    } else {
      assert (a + b)[1..] == b;
    }
  }

  /** One segment: empty and "." do nothing, ".." drops the last segment if there is one. */
  function Push(done: seq<string>, segment: string): seq<string> {
    if segment == "" || segment == "." then done
    else if segment == ".." then (if done == [] then [] else done[..|done| - 1])
    else done + [segment]
  }

  function Fold(done: seq<string>, segments: seq<string>): seq<string>
    decreases segments
  {
    if segments == [] then done else Fold(Push(done, segments[0]), segments[1..])
  }

  lemma {:induction false} FoldConcat(done: seq<string>, a: seq<string>, b: seq<string>)
    ensures Fold(done, a + b) == Fold(Fold(done, a), b)
    decreases a
  {
    if a == [] {
      assert a + b == b;
    } else {
      assert (a + b)[1..] == a[1..] + b;
      FoldConcat(Push(done, a[0]), a[1..], b);
    }
  }

  lemma {:induction false} FoldClean(done: seq<string>, segments: seq<string>)
    requires Clean(done) && SlashFree(segments)
    ensures Clean(Fold(done, segments))
    decreases segments
  {
    if segments != [] {
      FoldClean(Push(done, segments[0]), segments[1..]);
    }
  }

  lemma {:induction false} FoldAppends(done: seq<string>, segments: seq<string>)
    requires Clean(segments)
    ensures Fold(done, segments) == done + segments
    decreases segments
  {
    if segments != [] {
      FoldAppends(done + [segments[0]], segments[1..]);
      assert done + [segments[0]] + segments[1..] == done + segments;
    }
  }

  // ------------------------------------------------------------------ the driver's string functions

  /** An absolute, normalised path. */
  function Render(segments: seq<string>): string { "/" + Join(segments) }

  /** path.resolve(root, key) for an absolute root and a key that is not absolute. */
  function Resolve(root: string, key: string): string { Render(Fold([], Split(root + "/" + key))) }

  function StripSlashes(s: string): (r: string)
    ensures r == "" || r[0] != '/'
  {
    if s != "" && s[0] == '/' then StripSlashes(s[1..]) else s
  }

  function ForwardSlashes(s: string): (r: string)
    ensures |r| == |s| && forall i | 0 <= i < |s| :: r[i] == if s[i] == '\\' then '/' else s[i]
  {
    seq(|s|, i requires 0 <= i < |s| => if s[i] == '\\' then '/' else s[i])
  }

  function NormalizeKey(key: string): string { StripSlashes(ForwardSlashes(key)) }

  datatype Result<+T> = Ok(value: T) | OutsideRoot | Missing

  /** resolvePath: the string test on the root with a separator. */
  function ResolvePath(rootDirectory: string, key: string): Result<string> {
    var filePath := Resolve(rootDirectory, NormalizeKey(key));
    var rootWithSeparator := rootDirectory + "/";
    if filePath != rootDirectory && !(rootWithSeparator <= filePath) then OutsideRoot else Ok(filePath)
  }

  /** The segments that a key denotes under a root: its own, applied to the root's. */
  function SegmentsUnder(root: seq<string>, key: string): seq<string> { Fold(root, Split(NormalizeKey(key))) }

  /** Every directory that path.resolve computes is a normalised path. */
  lemma ResolvedIsClean(directory: string, relative: string)
    ensures exists segments :: Clean(segments) && Resolve(directory, relative) == Render(segments)
  {
    hide Split, Fold;
    var segments := Fold([], Split(directory + "/" + relative));
    FoldClean([], Split(directory + "/" + relative));
    assert Clean(segments);
  }

  lemma ResolvesToSegments(root: seq<string>, key: string)
    requires Clean(root)
    ensures Resolve(Render(root), NormalizeKey(key)) == Render(SegmentsUnder(root, key))
    ensures Clean(SegmentsUnder(root, key))
  {
    hide Split, Fold, Join, NormalizeKey;
    var k := NormalizeKey(key);
    assert Render(root) + "/" + k == "" + "/" + (Join(root) + "/" + k);
    SplitConcat("", Join(root) + "/" + k);
    SplitConcat(Join(root), k);
    RootSegments(root);
    FoldConcat([], Split("") + Split(Join(root)), Split(k));
    assert Split("") + (Split(Join(root)) + Split(k)) == Split("") + Split(Join(root)) + Split(k);
    FoldClean(root, Split(k));
  }

  lemma RootSegments(root: seq<string>)
    requires Clean(root)
    ensures Fold([], Split("") + Split(Join(root))) == root
  {
    var front := Split("");
    assert front == [""];
    FoldConcat([], front, Split(Join(root)));
    assert Fold([], [""]) == [];
    if root == [] {
      assert Split(Join(root)) == [""];
    } else {
      SplitJoin(root);
      FoldAppends([], root);
    }
  }

  lemma JoinEmpty(segments: seq<string>)
    requires Clean(segments) && segments != []
    ensures Join(segments) != ""
  {
  }

  lemma RenderInjective(a: seq<string>, b: seq<string>)
    requires Clean(a) && Clean(b) && Render(a) == Render(b)
    ensures a == b
  {
    assert Join(a) == Render(a)[1..] && Join(b) == Render(b)[1..];
    if a != [] {
      JoinEmpty(a);
      SplitJoin(a);
    }
    if b != [] {
      JoinEmpty(b);
      SplitJoin(b);
    }
  }

  /** The root's path with a separator starts another path exactly when the root's segments are a proper
   *  prefix of that path's. */
  lemma StartsWithRoot(root: seq<string>, segments: seq<string>)
    requires Clean(root) && Clean(segments) && root != []
    ensures Render(root) + "/" <= Render(segments) <==> root < segments
  {
    hide Split, Join;
    if Render(root) + "/" <= Render(segments) {
      var t := Render(segments)[|Render(root)| + 1..];
      assert Render(segments) == Render(root) + "/" + t;
      assert Join(segments) == Render(segments)[1..];
      assert Join(segments) == Join(root) + "/" + t;
      SplitConcat(Join(root), t);
      SplitJoin(root);
      if segments == [] {
        NoSegments();
      }
      SplitJoin(segments);
      assert segments == root + Split(t);
    }
    if root < segments {
      var rest := segments[|root|..];
      assert segments == root + rest;
      JoinConcat(root, rest);
      assert Render(segments) == Render(root) + "/" + Join(rest);
    }
  }

  lemma NoSegments()
    ensures Join([]) == ""
  {
  }

  /** For a root other than "/", the string test accepts a key exactly when the key's normalised
   *  segments have the root's segments as a prefix. */
  lemma AcceptsExactly(root: seq<string>, key: string)
    requires Clean(root) && root != []
    ensures ResolvePath(Render(root), key).Ok? <==> root <= SegmentsUnder(root, key)
    ensures ResolvePath(Render(root), key).Ok? ==> ResolvePath(Render(root), key).value == Render(SegmentsUnder(root, key))
  {
    hide SegmentsUnder, Clean, Render, NormalizeKey, Resolve;
    ResolvesToSegments(root, key);
    var segments := SegmentsUnder(root, key);
    StartsWithRoot(root, segments);
    if Render(segments) == Render(root) {
      RenderInjective(segments, root);
    }
    if root <= segments && |root| == |segments| {
      assert root == segments;
    }
  }

  /** Under the root "/" only the root itself is accepted, since its path with a separator is "//". */
  lemma RootOnlyItself(key: string)
    ensures ResolvePath("/", key).Ok? <==> SegmentsUnder([], key) == []
  {
    hide SegmentsUnder, NormalizeKey, Resolve;
    ResolvesToSegments([], key);
    NoSegments();
    assert Render([]) == "/";
    var segments := SegmentsUnder([], key);
    if segments != [] {
      JoinEmpty(segments);
      JoinHead(segments);
      assert Render(segments)[1] == Join(segments)[0];
    }
  }

  lemma JoinHead(segments: seq<string>)
    requires Clean(segments) && segments != []
    ensures Join(segments) != "" && Join(segments)[0] == segments[0][0] && segments[0][0] != '/'
  {
  }

  /** Two accepted keys name the same file exactly when they denote the same segments. */
  lemma SameFileExactly(root: seq<string>, a: string, b: string)
    requires Clean(root) && root != [] && ResolvePath(Render(root), a).Ok? && ResolvePath(Render(root), b).Ok?
    ensures ResolvePath(Render(root), a) == ResolvePath(Render(root), b) <==> SegmentsUnder(root, a) == SegmentsUnder(root, b)
  {
    hide SegmentsUnder, Clean, Render, ResolvePath;
    AcceptsExactly(root, a);
    AcceptsExactly(root, b);
    ResolvesToSegments(root, a);
    ResolvesToSegments(root, b);
    if Render(SegmentsUnder(root, a)) == Render(SegmentsUnder(root, b)) {
      RenderInjective(SegmentsUnder(root, a), SegmentsUnder(root, b));
    }
  }

  // ------------------------------------------------------------------ spellings

  lemma {:induction false} StripWhere(a: string, b: string)
    requires forall i | 0 <= i < |a| :: a[i] == '/'
    ensures StripSlashes(a + b) == StripSlashes(b)
  {
    if a == "" {
      assert a + b == b;
    } else {
      assert (a + b)[1..] == a[1..] + b;
      StripWhere(a[1..], b);
    }
  }

  lemma StripAgain(s: string)
    ensures StripSlashes(StripSlashes(s)) == StripSlashes(s)
    ensures StripSlashes(s) != "" ==> StripSlashes(s)[0] != '/'
  {
  }

  lemma {:induction false} StripKeepsWithout(s: string, c: char)
    requires Without(s, c)
    ensures Without(StripSlashes(s), c)
  {
    if s != "" && s[0] == '/' {
      StripKeepsWithout(s[1..], c);
    }
  }

  lemma ForwardSlashesDone(s: string)
    ensures Without(s, '\\') ==> ForwardSlashes(s) == s
    ensures Without(ForwardSlashes(s), '\\')
  {
  }

  /** A normalised key is its own normal form. */
  lemma NormalizeKeyIdempotent(key: string)
    ensures NormalizeKey(NormalizeKey(key)) == NormalizeKey(key)
  {
    var f := ForwardSlashes(key);
    ForwardSlashesDone(key);
    StripKeepsWithout(f, '\\');
    ForwardSlashesDone(StripSlashes(f));
    StripAgain(f);
  }

  /** Any mixture of slashes and backslashes, any leading slashes, and a "." or empty segment at the
   *  front are spellings of the same path. */
  lemma SpellingsAgree(root: seq<string>, key: string, other: string)
    requires ForwardSlashes(other) == ForwardSlashes(key)
    ensures SegmentsUnder(root, other) == SegmentsUnder(root, key)
    ensures SegmentsUnder(root, "/" + key) == SegmentsUnder(root, key)
    ensures SegmentsUnder(root, "./" + NormalizeKey(key)) == SegmentsUnder(root, key)
  {
    hide Split, Fold;
    assert ForwardSlashes("/" + key) == "/" + ForwardSlashes(key);
    StripWhere("/", ForwardSlashes(key));
    var k := NormalizeKey(key);
    NormalizeKeyIdempotent(key);
    DotFirst(root, key);
  }

  lemma DotFirst(root: seq<string>, key: string)
    ensures SegmentsUnder(root, "./" + NormalizeKey(key)) == SegmentsUnder(root, key)
  {
    var k := NormalizeKey(key);
    ForwardSlashesDone(key);
    StripKeepsWithout(ForwardSlashes(key), '\\');
    ForwardSlashesDone(k);
    assert ForwardSlashes("./" + k) == "./" + k;
    assert NormalizeKey("./" + k) == "./" + k;
    SplitWord(".");
    SplitConcat(".", k);
    assert "./" + k == "." + "/" + k;
    assert (["."] + Split(k))[1..] == Split(k);
    assert Fold(root, ["."] + Split(k)) == Fold(root, Split(k));
  }

  /** A key that climbs out of the root is rejected, in any spelling of its separators. */
  lemma EscapeRejected(root: seq<string>, name: string, key: string)
    requires Clean(root) && root != [] && Clean([name]) && ForwardSlashes(key) == "../" + name
    ensures !ResolvePath(Render(root), key).Ok? <==> name != root[|root| - 1]
  {
    hide Render, ResolvePath, Split;
    AcceptsExactly(root, key);
    assert NormalizeKey(key) == ".." + "/" + name;
    assert Without(name, '/') by { assert [name][0] == name; }
    assert name != "" && name != "." && name != ".." by { assert [name][0] == name; }
    SplitWord("..");
    SplitWord(name);
    SplitConcat("..", name);
    assert [".."] + [name] == ["..", name];
    assert ["..", name][1..] == [name];
    assert [name][1..] == [];
    var up := root[..|root| - 1];
    assert Fold(root, ["..", name]) == Fold(up, [name]);
    assert Fold(up, [name]) == up + [name];
    assert root == up + [root[|root| - 1]];
    assert root <= up + [name] <==> root == up + [name];
  }

  // ------------------------------------------------------------------ the driver

  type Body = string
  type Files = map<string, Body>

  function PutFile(files: Files, rootDirectory: string, key: string, body: Body): Files {
    var path := ResolvePath(rootDirectory, key);
    if path.Ok? then files[path.value := body] else files
  }

  function DeleteFile(files: Files, rootDirectory: string, key: string): Files {
    var path := ResolvePath(rootDirectory, key);
    if path.Ok? then files - {path.value} else files
  }

  function ReadFile(files: Files, rootDirectory: string, key: string): Result<Body> {
    var path := ResolvePath(rootDirectory, key);
    if !path.Ok? then OutsideRoot else if path.value in files then Ok(files[path.value]) else Missing
  }

  /** After a put, a read by any spelling of the same path gives the body, and a read of any other path
   *  gives what it gave before; likewise a delete removes the file under every spelling. */
  lemma PutThenRead(files: Files, root: seq<string>, key: string, body: Body, other: string)
    requires Clean(root) && root != [] && ResolvePath(Render(root), key).Ok? && ResolvePath(Render(root), other).Ok?
    ensures ReadFile(PutFile(files, Render(root), key, body), Render(root), other)
         == if SegmentsUnder(root, other) == SegmentsUnder(root, key) then Ok(body) else ReadFile(files, Render(root), other)
    ensures ReadFile(DeleteFile(files, Render(root), key), Render(root), other)
         == if SegmentsUnder(root, other) == SegmentsUnder(root, key) then Missing else ReadFile(files, Render(root), other)
  {
    hide SegmentsUnder, Clean, Render, ResolvePath;
    SameFileExactly(root, key, other);
  }

  function TrimEndSlashes(s: string): (r: string)
    ensures |r| <= |s| && r == s[..|r|] && (r == "" || r[|r| - 1] != '/')
    ensures forall i | |r| <= i < |s| :: s[i] == '/'
  {
    if s != "" && s[|s| - 1] == '/' then TrimEndSlashes(s[..|s| - 1]) else s
  }

  function NormalizeBaseUrl(baseUrl: string): string {
    var trimmed := TrimEndSlashes(Trim(baseUrl));
    if trimmed != "" && trimmed[0] == '/' then trimmed else "/" + trimmed
  }

  function Url(baseUrl: string, key: string): string { NormalizeBaseUrl(baseUrl) + "/" + NormalizeKey(key) }

  datatype StorageFile = StorageFile(key: string, url: string)

  /** What a key reads as under a root given by its segments: outside, missing, or the file's body. */
  ghost predicate ReadsAs(files: Files, root: seq<string>, key: string, r: Result<Body>) {
    var segments := SegmentsUnder(root, key);
    && (r.OutsideRoot? <==> !(root <= segments))
    && (r.Ok? <==> root <= segments && Render(segments) in files)
    && (r.Ok? ==> r.value == files[Render(segments)])
  }

  lemma ReadFileMeans(files: Files, root: seq<string>, key: string)
    requires Clean(root) && root != []
    ensures ReadsAs(files, root, key, ReadFile(files, Render(root), key))
  {
    hide SegmentsUnder, Clean, Render, Resolve, NormalizeKey;
    AcceptsExactly(root, key);
  }

  class LocalStorageDriver {
    const rootDirectory: string
    const baseUrl: string
    var files: Files

    constructor (rootDirectory: string, configuredBaseUrl: string)
      ensures this.rootDirectory == rootDirectory && baseUrl == NormalizeBaseUrl(configuredBaseUrl) && files == map[]
    {
      this.rootDirectory, baseUrl, files := rootDirectory, NormalizeBaseUrl(configuredBaseUrl), map[];
    }

    method Put(key: string, body: Body) returns (r: Result<StorageFile>)
      modifies this`files
      ensures files == PutFile(old(files), rootDirectory, key, body)
      ensures r.Ok? <==> ResolvePath(rootDirectory, key).Ok?
      ensures r.Ok? ==> r.value == StorageFile(NormalizeKey(key), baseUrl + "/" + NormalizeKey(key))
                        && ReadFile(files, rootDirectory, key) == Ok(body)
    {
      var path := ResolvePath(rootDirectory, key);
      if !path.Ok? {
        return OutsideRoot;
      }
      files := files[path.value := body];
      r := Ok(StorageFile(NormalizeKey(key), baseUrl + "/" + NormalizeKey(key)));
    }

    /** Deleting a file that is not there is no error. */
    method Delete(key: string) returns (r: Result<()>)
      modifies this`files
      ensures files == DeleteFile(old(files), rootDirectory, key)
      ensures r.Ok? <==> ResolvePath(rootDirectory, key).Ok?
      ensures r.Ok? ==> ReadFile(files, rootDirectory, key) == Missing
    {
      var path := ResolvePath(rootDirectory, key);
      if !path.Ok? {
        return OutsideRoot;
      }
      files := files - {path.value};
      r := Ok(());
    }

    method Read(key: string) returns (r: Result<Body>)
      ensures r == ReadFile(files, rootDirectory, key)
      ensures forall root | Clean(root) && root != [] && rootDirectory == Render(root) :: ReadsAs(files, root, key, r)
    {
      hide ReadsAs, Clean, Render, ResolvePath;
      forall root | Clean(root) && root != [] && rootDirectory == Render(root)
        ensures ReadsAs(files, root, key, ReadFile(files, rootDirectory, key))
      {
        ReadFileMeans(files, root, key);
      }
      var path := ResolvePath(rootDirectory, key);
      if !path.Ok? {
        return OutsideRoot;
      }
      if path.value !in files {
        return Missing;
      }
      r := Ok(files[path.value]);
    }

    method Exists(key: string) returns (r: Result<bool>)
      ensures r == if ReadFile(files, rootDirectory, key).OutsideRoot? then OutsideRoot
                   else Ok(ReadFile(files, rootDirectory, key).Ok?)
    {
      var path := ResolvePath(rootDirectory, key);
      if !path.Ok? {
        return OutsideRoot;
      }
      r := Ok(path.value in files);
    }
  }
}
