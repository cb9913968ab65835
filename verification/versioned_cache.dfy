/** Versioned caching under interleaving: readers and writers of cached namespaces, one store access at a time.
 *
 *  A namespace's rows are summarised by how many writes have been committed, so a snapshot is the
 *  number of writes it shows.  INCR is atomic, counters are never evicted, and namespaces hold no colon.
 */
module VersionedCache {
  import opened Text
  import opened CacheKeys

  type Pid = nat

  /** A version counter, or a cached page with the snapshot it was computed from. */
  datatype Value = Counter(n: nat) | Page(snapshot: nat)

  /** One rememberVersioned call, by the last thing it did. */
  datatype Reader =
    | Versioned(ns: string, key: string, version: nat)
    | Missed(ns: string, key: string, version: nat)
    | Loaded(ns: string, key: string, version: nat, snapshot: nat)
    | Answered(ns: string, key: string, version: nat, snapshot: nat)

  /** One create, update or remove; `commit` is the number of its own write. */
  datatype Writer = Saved(ns: string, commit: nat) | Acknowledged(ns: string, commit: nat)

  datatype State = State(db: map<string, nat>, store: map<string, Value>, readers: map<Pid, Reader>, writers: map<Pid, Writer>)

  datatype Action =
    | Ask(pid: Pid, ns: string, key: string)  // GET of the namespace version
    | LookUp(pid: Pid)                        // GET of the versioned key
    | Load(pid: Pid)                          // the factory reads the database
    | Fill(pid: Pid)                          // SET of the versioned key
    | Save(pid: Pid, ns: string)              // the writer's row is saved
    | Bump(pid: Pid)                          // INCR of the namespace version
    | Expire(key: string)                     // the ttl of a page runs out

  function Commits(s: State, ns: string): nat { if ns in s.db then s.db[ns] else 0 }

  /** getNamespaceVersion: a missing counter reads as version 1. */
  function CurrentVersion(s: State, ns: string): nat {
    var k := NamespaceVersionKey(ns);
    if k in s.store && s.store[k].Counter? then s.store[k].n else 1
  }

  predicate HasCounter(s: State, ns: string) { NamespaceVersionKey(ns) in s.store }

  /** INCR: a missing counter counts as 0. */
  function Incremented(s: State, ns: string): Value {
    var k := NamespaceVersionKey(ns);
    Counter(if k in s.store && s.store[k].Counter? then s.store[k].n + 1 else 1)
  }

  predicate Enabled(s: State, a: Action) {
    match a
    case Ask(pid, ns, key) => pid !in s.readers && Without(ns, ':')
    case LookUp(pid) => pid in s.readers && s.readers[pid].Versioned?
    case Load(pid) => pid in s.readers && s.readers[pid].Missed?
    case Fill(pid) => pid in s.readers && s.readers[pid].Loaded?
    case Save(pid, ns) => pid !in s.writers && Without(ns, ':')
    case Bump(pid) => pid in s.writers && s.writers[pid].Saved?
    case Expire(key) => key in s.store && s.store[key].Page?
  }

  function PageKey(r: Reader): string { VersionedKey(r.ns, r.version, r.key) }

  function Perform(s: State, a: Action): State
    requires Enabled(s, a)
  {
    match a
    case Ask(pid, ns, key) => s.(readers := s.readers[pid := Versioned(ns, key, CurrentVersion(s, ns))])
    case LookUp(pid) =>
      var r := s.readers[pid];
      var k := PageKey(r);
      s.(readers := s.readers[pid :=
        if k in s.store && s.store[k].Page? then Answered(r.ns, r.key, r.version, s.store[k].snapshot)
        else Missed(r.ns, r.key, r.version)])
    case Load(pid) =>
      var r := s.readers[pid];
      s.(readers := s.readers[pid := Loaded(r.ns, r.key, r.version, Commits(s, r.ns))])
    case Fill(pid) =>
      var r := s.readers[pid];
      s.(store := s.store[PageKey(r) := Page(r.snapshot)],
         readers := s.readers[pid := Answered(r.ns, r.key, r.version, r.snapshot)])
    case Save(pid, ns) =>
      s.(db := s.db[ns := Commits(s, ns) + 1], writers := s.writers[pid := Saved(ns, Commits(s, ns) + 1)])
    case Bump(pid) =>
      var w := s.writers[pid];
      s.(store := s.store[NamespaceVersionKey(w.ns) := Incremented(s, w.ns)],
         writers := s.writers[pid := Acknowledged(w.ns, w.commit)])
    case Expire(key) => s.(store := s.store - {key})
  }

  function Step(s: State, a: Action): State { if Enabled(s, a) then Perform(s, a) else s }

  function After(s: State, acts: seq<Action>): State {
    if acts == [] then s else Step(After(s, acts[..|acts| - 1]), acts[|acts| - 1])
  }

  // ------------------------------------------------------------------ what every step keeps

  ghost predicate CountersSound(s: State) {
    forall ns | Without(ns, ':') && HasCounter(s, ns) ::
      s.store[NamespaceVersionKey(ns)].Counter? && s.store[NamespaceVersionKey(ns)].n >= 1
  }

  /** No page lies under a version that the namespace has not reached, or shows writes to come. */
  ghost predicate PagesSound(s: State) {
    forall ns, v, key | Without(ns, ':') && VersionedKey(ns, v, key) in s.store ::
      PageSound(s, ns, v, s.store[VersionedKey(ns, v, key)])
  }

  predicate PageSound(s: State, ns: string, v: nat, page: Value) {
    page.Page? && v <= CurrentVersion(s, ns) && page.snapshot <= Commits(s, ns)
  }

  predicate HasSnapshot(r: Reader) { r.Loaded? || r.Answered? }

  predicate ReaderSound(s: State, r: Reader) {
    Without(r.ns, ':') && r.version <= CurrentVersion(s, r.ns) && (HasSnapshot(r) ==> r.snapshot <= Commits(s, r.ns))
  }

  predicate WriterSound(s: State, w: Writer) { Without(w.ns, ':') && w.commit <= Commits(s, w.ns) }

  ghost predicate Sound(s: State) {
    && CountersSound(s) && PagesSound(s)
    && (forall pid | pid in s.readers :: ReaderSound(s, s.readers[pid]))
    && (forall pid | pid in s.writers :: WriterSound(s, s.writers[pid]))
  }

  /** Versions and commit counts never go back, and a counter, once there, stays. */
  lemma StepMonotone(s: State, a: Action, ns: string)
    requires CountersSound(s) && PagesSound(s) && Without(ns, ':')
    requires forall pid | pid in s.readers :: ReaderSound(s, s.readers[pid])
    requires forall pid | pid in s.writers :: WriterSound(s, s.writers[pid])
    ensures CurrentVersion(s, ns) <= CurrentVersion(Step(s, a), ns) && Commits(s, ns) <= Commits(Step(s, a), ns)
    ensures HasCounter(s, ns) ==> HasCounter(Step(s, a), ns)
    ensures HasCounter(Step(s, a), ns) ==>
      var c := Step(s, a).store[NamespaceVersionKey(ns)]; c.Counter? && c.n >= 1
  {
    hide VersionedKey, NamespaceVersionKey, Without;
    if Enabled(s, a) {
      match a
      case Fill(pid) =>
        var r := s.readers[pid];
        CounterKeyDisjoint(r.ns, r.version, r.key, ns);
      case Bump(pid) =>
        if NamespaceVersionKey(s.writers[pid].ns) == NamespaceVersionKey(ns) {
          CounterKeyInjective(s.writers[pid].ns, ns);
        }
      case _ =>
    }
  }

  /** What one step leaves under a versioned key: what was there, or the page of the reader that filled it. */
  lemma StepPage(s: State, a: Action, ns: string, v: nat, key: string)
    requires Sound(s) && Without(ns, ':') && VersionedKey(ns, v, key) in Step(s, a).store
    ensures var k := VersionedKey(ns, v, key);
            || (k in s.store && Step(s, a).store[k] == s.store[k])
            || (a.Fill? && Enabled(s, a) && s.readers[a.pid].ns == ns && s.readers[a.pid].version == v
                && Step(s, a).store[k] == Page(s.readers[a.pid].snapshot))
  {
    hide VersionedKey, NamespaceVersionKey, Without;
    if Enabled(s, a) {
      match a
      case Fill(pid) =>
        var r := s.readers[pid];
        if PageKey(r) == VersionedKey(ns, v, key) {
          VersionedKeyInjective(r.ns, r.version, r.key, ns, v, key);
        }
      case Bump(pid) =>
        CounterKeyDisjoint(ns, v, key, s.writers[pid].ns);
      case _ =>
    }
  }

  /** What one step makes of a reader. */
  lemma StepReader(s: State, a: Action, pid: Pid)
    requires Sound(s) && pid in Step(s, a).readers
    ensures var r' := Step(s, a).readers[pid];
            if pid in s.readers then
              var r := s.readers[pid];
              && r'.ns == r.ns && r'.key == r.key && r'.version == r.version
              && (HasSnapshot(r) ==> HasSnapshot(r') && r'.snapshot == r.snapshot)
              && (HasSnapshot(r') && !HasSnapshot(r) ==>
                    || r'.snapshot == Commits(s, r.ns)
                    || (PageKey(r) in s.store && s.store[PageKey(r)] == Page(r'.snapshot)))
            else
              && Without(r'.ns, ':') && r'.version == CurrentVersion(s, r'.ns) && !HasSnapshot(r')
              && a == Ask(pid, r'.ns, r'.key)
  {
    hide VersionedKey, NamespaceVersionKey, Without;
  }

  lemma StepWriter(s: State, a: Action, pid: Pid)
    requires pid in Step(s, a).writers
    ensures var w' := Step(s, a).writers[pid];
            if pid in s.writers then w'.ns == s.writers[pid].ns && w'.commit == s.writers[pid].commit
            else Without(w'.ns, ':') && w'.commit == Commits(Step(s, a), w'.ns)
  {
    hide VersionedKey, NamespaceVersionKey, Without;
  }

  lemma StepSound(s: State, a: Action)
    requires Sound(s)
    ensures Sound(Step(s, a))
  {
    hide Step, VersionedKey, NamespaceVersionKey, Without, CurrentVersion, Commits;
    var s' := Step(s, a);
    forall ns | Without(ns, ':') && HasCounter(s', ns)
      ensures s'.store[NamespaceVersionKey(ns)].Counter? && s'.store[NamespaceVersionKey(ns)].n >= 1
    {
      StepMonotone(s, a, ns);
    }
    forall ns, v, key | Without(ns, ':') && VersionedKey(ns, v, key) in s'.store
      ensures PageSound(s', ns, v, s'.store[VersionedKey(ns, v, key)])
    {
      StepMonotone(s, a, ns);
      StepPage(s, a, ns, v, key);
    }
    forall pid | pid in s'.readers
      ensures ReaderSound(s', s'.readers[pid])
    {
      StepReader(s, a, pid);
      ReaderStaysSound(s, a, pid);
    }
    forall pid | pid in s'.writers
      ensures WriterSound(s', s'.writers[pid])
    {
      StepWriter(s, a, pid);
      if pid in s.writers {
        StepMonotone(s, a, s.writers[pid].ns);
      }
    }
  }

  lemma ReaderStaysSound(s: State, a: Action, pid: Pid)
    requires Sound(s) && pid in Step(s, a).readers
    ensures ReaderSound(Step(s, a), Step(s, a).readers[pid])
  {
    hide Step, VersionedKey, NamespaceVersionKey, Without, CurrentVersion, Commits;
    StepReader(s, a, pid);
    var r' := Step(s, a).readers[pid];
    StepMonotone(s, a, r'.ns);
    if pid in s.readers {
      assert ReaderSound(s, s.readers[pid]);
    }
  }

  lemma {:induction false} RunSound(s: State, acts: seq<Action>)
    requires Sound(s)
    ensures Sound(After(s, acts))
  {
    if acts != [] {
      RunSound(s, acts[..|acts| - 1]);
      StepSound(After(s, acts[..|acts| - 1]), acts[|acts| - 1]);
    }
  }

  // ------------------------------------------------------------------ freshness

  /** From version v of ns on, everything cached, loaded or answered shows at least the first n writes;
   *  the calls in `past` were answered before. */
  ghost predicate FreshFrom(s: State, ns: string, v: nat, n: nat, past: set<Pid>) {
    && v <= CurrentVersion(s, ns) && n <= Commits(s, ns)
    && (forall v', key | v <= v' && VersionedKey(ns, v', key) in s.store ::
          PageShows(s.store[VersionedKey(ns, v', key)], n))
    && (forall pid | pid in past :: pid in s.readers && s.readers[pid].Answered?)
    && (forall pid | pid in s.readers && pid !in past && s.readers[pid].ns == ns && v <= s.readers[pid].version ::
          ReaderShows(s.readers[pid], n))
  }

  predicate PageShows(page: Value, n: nat) { page.Page? ==> n <= page.snapshot }

  predicate ReaderShows(r: Reader, n: nat) { HasSnapshot(r) ==> n <= r.snapshot }

  /** The INCR of a present counter produces a version under which nothing is stale. */
  lemma BumpStartsFresh(s: State, pid: Pid)
    requires Sound(s) && Enabled(s, Bump(pid)) && HasCounter(s, s.writers[pid].ns)
    ensures var w := s.writers[pid];
            FreshFrom(Step(s, Bump(pid)), w.ns, CurrentVersion(s, w.ns) + 1, w.commit, {})
  {
    hide VersionedKey, NamespaceVersionKey, Without;
    var w := s.writers[pid];
    var s' := Step(s, Bump(pid));
    assert WriterSound(s, w);
    forall v': nat, key | VersionedKey(w.ns, v', key) in s'.store
      ensures v' <= CurrentVersion(s, w.ns)
    {
      StepPage(s, Bump(pid), w.ns, v', key);
      assert PageSound(s, w.ns, v', s.store[VersionedKey(w.ns, v', key)]);
    }
    forall p | p in s'.readers && s'.readers[p].ns == w.ns
      ensures s'.readers[p].version <= CurrentVersion(s, w.ns)
    {
      assert ReaderSound(s, s.readers[p]);
    }
  }

  lemma FreshStep(s: State, a: Action, ns: string, v: nat, n: nat, past: set<Pid>)
    requires Sound(s) && Without(ns, ':') && FreshFrom(s, ns, v, n, past)
    ensures FreshFrom(Step(s, a), ns, v, n, past)
  {
    hide Step, VersionedKey, NamespaceVersionKey, Without, CurrentVersion, Commits;
    var s' := Step(s, a);
    StepMonotone(s, a, ns);
    forall v', key | v <= v' && VersionedKey(ns, v', key) in s'.store
      ensures PageShows(s'.store[VersionedKey(ns, v', key)], n)
    {
      StepPage(s, a, ns, v', key);
    }
    forall pid | pid in past
      ensures pid in s'.readers && s'.readers[pid].Answered?
    {
      AnsweredStays(s, a, pid);
    }
    forall pid | pid in s'.readers && pid !in past && s'.readers[pid].ns == ns && v <= s'.readers[pid].version
      ensures ReaderShows(s'.readers[pid], n)
    {
      StepReader(s, a, pid);
    }
  }

  lemma AnsweredStays(s: State, a: Action, pid: Pid)
    requires pid in s.readers
    ensures pid in Step(s, a).readers
    ensures s.readers[pid].Answered? ==> Step(s, a).readers[pid] == s.readers[pid]
  {
    hide VersionedKey, NamespaceVersionKey, Without;
  }

  lemma {:induction false} FreshRun(s: State, acts: seq<Action>, ns: string, v: nat, n: nat, past: set<Pid>)
    requires Sound(s) && Without(ns, ':') && FreshFrom(s, ns, v, n, past)
    ensures FreshFrom(After(s, acts), ns, v, n, past)
  {
    hide Sound, FreshFrom, Step;
    if acts != [] {
      RunSound(s, acts[..|acts| - 1]);
      FreshRun(s, acts[..|acts| - 1], ns, v, n, past);
      FreshStep(After(s, acts[..|acts| - 1]), acts[|acts| - 1], ns, v, n, past);
    }
  }

  lemma {:induction false} ReaderKept(s: State, acts: seq<Action>, pid: Pid)
    requires Sound(s) && pid in s.readers
    ensures pid in After(s, acts).readers
    ensures var r, r' := s.readers[pid], After(s, acts).readers[pid];
            r'.ns == r.ns && r'.key == r.key && r'.version == r.version
  {
    hide Sound;
    if acts != [] {
      var front, a := acts[..|acts| - 1], acts[|acts| - 1];
      ReaderKept(s, front, pid);
      RunSound(s, front);
      assert pid in Step(After(s, front), a).readers;
      StepReader(After(s, front), a, pid);
    }
  }

  lemma {:induction false} AfterConcat(s: State, a: seq<Action>, b: seq<Action>)
    ensures After(s, a + b) == After(After(s, a), b)
  {
    if b == [] {
      assert a + b == a;
    } else {
      assert (a + b)[..|a + b| - 1] == a + b[..|b| - 1];
      AfterConcat(s, a, b[..|b| - 1]);
    }
  }

  lemma AfterNothing(s: State)
    ensures After(s, []) == s
  {
  }

  lemma AfterSnoc(s: State, acts: seq<Action>, i: nat)
    requires i < |acts|
    ensures After(s, acts[..i + 1]) == Step(After(s, acts[..i]), acts[i])
  {
    assert acts[..i + 1][..i] == acts[..i];
  }

  /** Whatever the interleaving: once the counter exists, a read that fetches the version after a
   *  writer's INCR is answered from a snapshot that shows that writer's write, even if older readers
   *  fill the cache late. */
  lemma ReadsAreFresh(s: State, acts: seq<Action>, i: nat, j: nat)
    requires Sound(s) && i < j < |acts|
    requires acts[i].Bump? && Enabled(After(s, acts[..i]), acts[i])
    requires acts[j].Ask? && Enabled(After(s, acts[..j]), acts[j])
    requires acts[j].ns == After(s, acts[..i]).writers[acts[i].pid].ns && HasCounter(After(s, acts[..i]), acts[j].ns)
    ensures acts[j].pid in After(s, acts).readers
    ensures var r := After(s, acts).readers[acts[j].pid];
            r.Answered? ==> r.key == acts[j].key && After(s, acts[..i]).writers[acts[i].pid].commit <= r.snapshot
  {
    hide Sound, After, FreshFrom, CurrentVersion;
    var s0 := After(s, acts[..i]);
    RunSound(s, acts[..i]);
    var ns, v, n := acts[j].ns, CurrentVersion(s0, acts[j].ns) + 1, s0.writers[acts[i].pid].commit;
    BumpStartsFresh(s0, acts[i].pid);
    AfterSnoc(s, acts, i);
    var s1 := After(s, acts[..i + 1]);
    RunSound(s, acts[..i + 1]);

    var middle := acts[i + 1..j];
    assert acts[..j] == acts[..i + 1] + middle;
    AfterConcat(s, acts[..i + 1], middle);
    FreshRun(s1, middle, ns, v, n, {});
    var s2 := After(s, acts[..j]);
    RunSound(s, acts[..j]);

    AfterSnoc(s, acts, j);
    var s3 := After(s, acts[..j + 1]);
    RunSound(s, acts[..j + 1]);
    FreshStep(s2, acts[j], ns, v, n, {});
    AskedVersion(s2, acts[j], v, n);

    assert acts == acts[..j + 1] + acts[j + 1..];
    AfterConcat(s, acts[..j + 1], acts[j + 1..]);
    FreshRun(s3, acts[j + 1..], ns, v, n, {});
    ReaderKept(s3, acts[j + 1..], acts[j].pid);
    AnswerShows(After(s, acts), acts[j].pid, ns, v, n);
  }

  lemma AskedVersion(s: State, a: Action, v: nat, n: nat)
    requires a.Ask? && Enabled(s, a) && FreshFrom(s, a.ns, v, n, {})
    ensures a.pid in Step(s, a).readers
    ensures Step(s, a).readers[a.pid].ns == a.ns && Step(s, a).readers[a.pid].key == a.key && v <= Step(s, a).readers[a.pid].version
  {
  }

  lemma AnswerShows(s: State, pid: Pid, ns: string, v: nat, n: nat)
    requires FreshFrom(s, ns, v, n, {}) && pid in s.readers && s.readers[pid].ns == ns && v <= s.readers[pid].version
    ensures s.readers[pid].Answered? ==> n <= s.readers[pid].snapshot
  {
    assert ReaderShows(s.readers[pid], n);
  }

  // ------------------------------------------------------------------ the first invalidation

  /** An INCR moves the version that readers use exactly when the counter was there before. */
  lemma BumpMovesVersionExactly(s: State, pid: Pid)
    requires Sound(s) && Enabled(s, Bump(pid))
    ensures var ns := s.writers[pid].ns;
            CurrentVersion(Step(s, Bump(pid)), ns) != CurrentVersion(s, ns) <==> HasCounter(s, ns)
  {
    assert WriterSound(s, s.writers[pid]);
  }

  /** Right after a writer's INCR, a read is still answered from a page cached before it exactly when
   *  the counter was missing and a page lay under the default version. */
  lemma StaleExactly(s: State, w: Pid, r: Pid, key: string)
    requires Sound(s) && Enabled(s, Bump(w)) && r !in s.readers
    ensures var ns := s.writers[w].ns;
            var k := VersionedKey(ns, 1, key);
            var s' := Step(Step(Step(s, Bump(w)), Ask(r, ns, key)), LookUp(r));
            && r in s'.readers
            && (s'.readers[r].Answered? <==> !HasCounter(s, ns) && k in s.store)
            && (s'.readers[r].Answered? ==> s.store[k] == Page(s'.readers[r].snapshot))
  {
    hide VersionedKey, NamespaceVersionKey, Without;
    var ns := s.writers[w].ns;
    assert WriterSound(s, s.writers[w]);
    var s1 := Step(s, Bump(w));
    var v := CurrentVersion(s1, ns);
    CounterKeyDisjoint(ns, v, key, ns);
    BumpMovesVersionExactly(s, w);
    assert s1.store == s.store[NamespaceVersionKey(ns) := Incremented(s, ns)];
    assert VersionedKey(ns, v, key) in s.store ==> PageSound(s, ns, v, s.store[VersionedKey(ns, v, key)]);
    assert Step(s1, Ask(r, ns, key)).readers[r] == Versioned(ns, key, v);
  }

  // ------------------------------------------------------------------ exactly when later reads are fresh

  /** Whatever happens next, every read of ns that is still to come is answered from a snapshot that
   *  shows the first n writes. */
  ghost predicate LaterReadsShow(s: State, ns: string, n: nat) {
    forall acts, pid | pid !in s.readers && pid in After(s, acts).readers :: AnswerShowsIn(After(s, acts).readers[pid], ns, n)
  }

  predicate AnswerShowsIn(r: Reader, ns: string, n: nat) { r.ns == ns && r.Answered? ==> n <= r.snapshot }

  /** Nothing that a read under the default version may still get, from the store or from a late fill,
   *  lacks one of the first n writes. */
  ghost predicate DefaultVersionShows(s: State, ns: string, n: nat) {
    && (forall key | VersionedKey(ns, 1, key) in s.store :: PageShows(s.store[VersionedKey(ns, 1, key)], n))
    && (forall pid | pid in s.readers && s.readers[pid].Loaded? && s.readers[pid].ns == ns && s.readers[pid].version == 1 ::
          n <= s.readers[pid].snapshot)
  }

  function AnsweredCalls(s: State): set<Pid> { set pid | pid in s.readers && s.readers[pid].Answered? }

  /** After a first INCR: the default version is in use, and what it may still serve is fresh. */
  lemma FirstBumpFresh(s: State, w: Pid)
    requires Sound(s) && Enabled(s, Bump(w)) && !HasCounter(s, s.writers[w].ns)
    requires DefaultVersionShows(s, s.writers[w].ns, s.writers[w].commit)
    ensures FreshFrom(Step(s, Bump(w)), s.writers[w].ns, 1, s.writers[w].commit, AnsweredCalls(s))
  {
    hide VersionedKey, NamespaceVersionKey, Without;
    var ns, n := s.writers[w].ns, s.writers[w].commit;
    var s' := Step(s, Bump(w));
    assert WriterSound(s, s.writers[w]);
    forall v': nat, key | 1 <= v' && VersionedKey(ns, v', key) in s'.store
      ensures PageShows(s'.store[VersionedKey(ns, v', key)], n)
    {
      StepPage(s, Bump(w), ns, v', key);
      assert PageSound(s, ns, v', s.store[VersionedKey(ns, v', key)]);
    }
    forall pid | pid in s'.readers && pid !in AnsweredCalls(s) && s'.readers[pid].ns == ns && 1 <= s'.readers[pid].version
      ensures ReaderShows(s'.readers[pid], n)
    {
      assert ReaderSound(s, s.readers[pid]);
    }
  }

  /** A call that is not among the present ones is still to fetch its version. */
  lemma {:induction false} LaterCallVersion(s: State, acts: seq<Action>, ns: string, v: nat, n: nat, past: set<Pid>, pid: Pid)
    requires Sound(s) && FreshFrom(s, ns, v, n, past) && Without(ns, ':')
    requires pid !in s.readers && pid in After(s, acts).readers && After(s, acts).readers[pid].ns == ns
    ensures v <= After(s, acts).readers[pid].version
  {
    hide Sound, FreshFrom, CurrentVersion, Without, Step;
    if acts != [] {
      var front, a := acts[..|acts| - 1], acts[|acts| - 1];
      var before := After(s, front);
      RunSound(s, front);
      FreshRun(s, front, ns, v, n, past);
      StepReader(before, a, pid);
      if pid in before.readers {
        LaterCallVersion(s, front, ns, v, n, past, pid);
      } else {
        FreshVersion(before, ns, v, n, past);
      }
    }
  }

  lemma FreshVersion(s: State, ns: string, v: nat, n: nat, past: set<Pid>)
    requires FreshFrom(s, ns, v, n, past)
    ensures v <= CurrentVersion(s, ns)
  {
  }

  lemma FreshServes(s: State, ns: string, v: nat, n: nat, past: set<Pid>)
    requires Sound(s) && FreshFrom(s, ns, v, n, past) && Without(ns, ':') && forall pid | pid in past :: pid in s.readers
    ensures LaterReadsShow(s, ns, n)
  {
    hide Sound, FreshFrom, Without, After;
    forall acts, pid | pid !in s.readers && pid in After(s, acts).readers
      ensures AnswerShowsIn(After(s, acts).readers[pid], ns, n)
    {
      if After(s, acts).readers[pid].ns == ns {
        LaterCallVersion(s, acts, ns, v, n, past, pid);
        FreshRun(s, acts, ns, v, n, past);
        FreshReader(After(s, acts), ns, v, n, past, pid);
      }
    }
  }

  lemma FreshReader(s: State, ns: string, v: nat, n: nat, past: set<Pid>, pid: Pid)
    requires FreshFrom(s, ns, v, n, past) && pid in s.readers && pid !in past
    requires s.readers[pid].ns == ns && v <= s.readers[pid].version
    ensures AnswerShowsIn(s.readers[pid], ns, n)
  {
    assert ReaderShows(s.readers[pid], n);
  }

  lemma {:induction false} FreshPid(used: set<Pid>) returns (pid: Pid)
    ensures forall p | p in used :: p < pid
  {
    if used == {} {
      pid := 0;
    } else {
      var p :| p in used;
      var q := FreshPid(used - {p});
      assert forall x | x in used :: x == p || x in used - {p};
      pid := if q <= p then p + 1 else q;
    }
  }

  /** A new read of a key whose page is cached under the current version is answered from that page. */
  lemma ReadsPage(s: State, ns: string, key: string, r: Pid)
    requires r !in s.readers && Without(ns, ':')
    requires var k := VersionedKey(ns, CurrentVersion(s, ns), key); k in s.store && s.store[k].Page?
    ensures var s' := After(s, [Ask(r, ns, key), LookUp(r)]);
            && r in s'.readers
            && s'.readers[r] == Answered(ns, key, CurrentVersion(s, ns), s.store[VersionedKey(ns, CurrentVersion(s, ns), key)].snapshot)
  {
    hide VersionedKey, NamespaceVersionKey, Without, CurrentVersion, After;
    var acts := [Ask(r, ns, key), LookUp(r)];
    AfterNothing(s);
    AfterSnoc(s, acts, 0);
    AfterSnoc(s, acts, 1);
    assert acts[..0] == [] && acts[..2] == acts;
    assert Step(s, acts[0]).readers[r] == Versioned(ns, key, CurrentVersion(s, ns));
  }

  lemma StaleAnswer(s: State, acts: seq<Action>, pid: Pid, ns: string, n: nat)
    requires pid !in s.readers && pid in After(s, acts).readers && !AnswerShowsIn(After(s, acts).readers[pid], ns, n)
    ensures !LaterReadsShow(s, ns, n)
  {
    hide After, AnswerShowsIn;
  }

  /** A page under the default version that lacks a write is served after the first INCR. */
  lemma StalePageServed(s: State, w: Pid, key: string)
    requires Sound(s) && Enabled(s, Bump(w)) && !HasCounter(s, s.writers[w].ns)
    requires var k := VersionedKey(s.writers[w].ns, 1, key); k in s.store && !PageShows(s.store[k], s.writers[w].commit)
    ensures !LaterReadsShow(Step(s, Bump(w)), s.writers[w].ns, s.writers[w].commit)
  {
    hide VersionedKey, NamespaceVersionKey, Without, After, LaterReadsShow;
    var ns := s.writers[w].ns;
    assert WriterSound(s, s.writers[w]);
    CounterKeyDisjoint(ns, 1, key, ns);
    var s' := Step(s, Bump(w));
    assert CurrentVersion(s', ns) == 1;
    var r := FreshPid(s'.readers.Keys);
    ReadsPage(s', ns, key, r);
    StaleAnswer(s', [Ask(r, ns, key), LookUp(r)], r, ns, s.writers[w].commit);
  }

  /** A reader that loaded under the default version before the write fills late, and its page is served. */
  lemma StaleFillServed(s: State, w: Pid, p: Pid)
    requires Sound(s) && Enabled(s, Bump(w)) && !HasCounter(s, s.writers[w].ns)
    requires p in s.readers && s.readers[p].Loaded? && s.readers[p].ns == s.writers[w].ns && s.readers[p].version == 1
    requires s.readers[p].snapshot < s.writers[w].commit
    ensures !LaterReadsShow(Step(s, Bump(w)), s.writers[w].ns, s.writers[w].commit)
  {
    hide VersionedKey, NamespaceVersionKey, Without, After, LaterReadsShow;
    var ns, key := s.writers[w].ns, s.readers[p].key;
    assert WriterSound(s, s.writers[w]);
    CounterKeyDisjoint(ns, 1, key, ns);
    var s' := Step(s, Bump(w));
    var filled := Step(s', Fill(p));
    assert CurrentVersion(filled, ns) == 1;
    var r := FreshPid(s'.readers.Keys + filled.readers.Keys);
    ReadsPage(filled, ns, key, r);
    AfterConcat(s', [Fill(p)], [Ask(r, ns, key), LookUp(r)]);
    AfterNothing(s');
    AfterSnoc(s', [Fill(p)], 0);
    assert [Fill(p)][..1] == [Fill(p)] && [Fill(p)][..0] == [];
    StaleAnswer(s', [Fill(p)] + [Ask(r, ns, key), LookUp(r)], r, ns, s.writers[w].commit);
  }

  /** Over all continuations: every read that comes after a writer's INCR shows the writer's commit exactly
   *  when the counter was there before the INCR, or every page and every loaded reader under the default
   *  version showed that commit already. */
  lemma LaterReadsFreshExactly(s: State, w: Pid)
    requires Sound(s) && Enabled(s, Bump(w))
    ensures var (ns, n) := (s.writers[w].ns, s.writers[w].commit);
            LaterReadsShow(Step(s, Bump(w)), ns, n) <==> HasCounter(s, ns) || DefaultVersionShows(s, ns, n)
  {
    hide LaterReadsShow, Step, VersionedKey, NamespaceVersionKey, Without, FreshFrom;
    var ns, n := s.writers[w].ns, s.writers[w].commit;
    StepSound(s, Bump(w));
    assert WriterSound(s, s.writers[w]);
    if HasCounter(s, ns) {
      BumpStartsFresh(s, w);
      FreshServes(Step(s, Bump(w)), ns, CurrentVersion(s, ns) + 1, n, {});
    } else if DefaultVersionShows(s, ns, n) {
      FirstBumpFresh(s, w);
      BumpKeepsReaders(s, w);
      FreshServes(Step(s, Bump(w)), ns, 1, n, AnsweredCalls(s));
    } else if key :| VersionedKey(ns, 1, key) in s.store && !PageShows(s.store[VersionedKey(ns, 1, key)], n) {
      StalePageServed(s, w, key);
    } else {
      var p :| p in s.readers && s.readers[p].Loaded? && s.readers[p].ns == ns && s.readers[p].version == 1 && s.readers[p].snapshot < n;
      StaleFillServed(s, w, p);
    }
  }

  lemma BumpKeepsReaders(s: State, w: Pid)
    ensures Step(s, Bump(w)).readers == s.readers
  {
  }

  const FRESH_START := State(map[], map[], map[], map[])

  /** In a fresh namespace the first write is lost on readers: a page is cached, a row is saved, the
   *  first INCR makes version 1, and a read that starts later still gets the page without the write. */
  lemma FirstInvalidationMovesNothing()
    ensures Sound(FRESH_START)
    ensures var acts := [Ask(0, "brands", "k"), LookUp(0), Load(0), Fill(0), Save(0, "brands"), Bump(0),
                         Ask(1, "brands", "k"), LookUp(1)];
            var s := After(FRESH_START, acts);
            && 0 in s.writers && s.writers[0] == Acknowledged("brands", 1)
            && 1 in s.readers && s.readers[1] == Answered("brands", "k", 1, 0)
  {
    hide After, Step, VersionedKey, NamespaceVersionKey;
    var acts := [Ask(0, "brands", "k"), LookUp(0), Load(0), Fill(0), Save(0, "brands"), Bump(0),
                 Ask(1, "brands", "k"), LookUp(1)];
    FirstWrite();
    var s5 := After(FRESH_START, acts[..5]);
    assert acts[..5] == [Ask(0, "brands", "k"), LookUp(0), Load(0), Fill(0), Save(0, "brands")];
    RunSound(FRESH_START, acts[..5]);
    AfterSnoc(FRESH_START, acts, 5);
    AfterSnoc(FRESH_START, acts, 6);
    AfterSnoc(FRESH_START, acts, 7);
    assert acts[..8] == acts;
    LastSteps(s5);
  }

  lemma FirstWrite()
    ensures After(FRESH_START, [Ask(0, "brands", "k"), LookUp(0), Load(0), Fill(0), Save(0, "brands")]) == ONE_WRITE
  {
    hide After, VersionedKey, NamespaceVersionKey;
    var acts := [Ask(0, "brands", "k"), LookUp(0), Load(0), Fill(0), Save(0, "brands")];
    NamespacesWithoutColon();
    assert After(FRESH_START, acts[..0]) == FRESH_START by { AfterNothing(FRESH_START); }
    AfterSnoc(FRESH_START, acts, 0);
    AfterSnoc(FRESH_START, acts, 1);
    AfterSnoc(FRESH_START, acts, 2);
    AfterSnoc(FRESH_START, acts, 3);
    AfterSnoc(FRESH_START, acts, 4);
    assert acts[..5] == acts;
  }

  const ONE_WRITE := State(map["brands" := 1], map[VersionedKey("brands", 1, "k") := Page(0)],
                           map[0 := Answered("brands", "k", 1, 0)], map[0 := Saved("brands", 1)])

  lemma LastSteps(s: State)
    requires s == ONE_WRITE && Sound(s)
    ensures var s' := Step(Step(Step(s, Bump(0)), Ask(1, "brands", "k")), LookUp(1));
            && 0 in s'.writers && s'.writers[0] == Acknowledged("brands", 1)
            && 1 in s'.readers && s'.readers[1] == Answered("brands", "k", 1, 0)
  {
    hide VersionedKey, NamespaceVersionKey;
    NamespacesWithoutColon();
    CounterKeyDisjoint("brands", 1, "k", "brands");
    StaleExactly(s, 0, 1, "k");
  }
}
