/** The file fallback of the Redis service against a key-value store with real expiry. */
module TtlStore {
  import opened Wrappers
  import CacheKeys

  /** A stored string, by what JavaScript's Number() reads in it: a number, or nothing (NaN). */
  datatype Value = Number(n: int) | Text(s: string) | NotANumber

  /** expiresAt is in milliseconds; None is an entry without expiry. */
  datatype Entry = Entry(value: Value, expiresAt: Option<nat>)

  type Files = map<string, Entry>

  datatype Op =
    | Set(key: string, value: Value, ttlSeconds: Option<nat>)
    | Get(key: string)
    | Del(key: string)
    | Incr(key: string)
    | SetIfNotExists(key: string, value: Value, ttlSeconds: Option<nat>)

  datatype Reply = Ok | Found(found: Option<Value>) | Count(count: Value) | Claimed(claimed: bool) | NotAnInteger

  /** A missing ttl and a ttl of zero both mean: no expiry. */
  function ExpiryAt(now: nat, ttlSeconds: Option<nat>): Option<nat> {
    if ttlSeconds.Some? && ttlSeconds.value != 0 then Some(now + ttlSeconds.value * 1000) else None
  }

  predicate Expired(entry: Entry, now: nat) { entry.expiresAt.Some? && entry.expiresAt.value <= now }

  predicate Present(files: Files, now: nat, key: string) { key in files && !Expired(files[key], now) }

  /** The entries a store with real expiry still has. */
  function Live(files: Files, now: nat): Files {
    map key | key in files && !Expired(files[key], now) :: files[key]
  }

  // ------------------------------------------------------------------ the fallback

  /** Reading deletes the file if it has expired. */
  function AfterRead(files: Files, now: nat, key: string): Files {
    if key in files && Expired(files[key], now) then files - {key} else files
  }

  function Plus1(value: Value): Value {
    if value.Number? then Number(value.n + 1) else NotANumber
  }

  function FallbackStep(files: Files, now: nat, op: Op): (Files, Reply) {
    match op
    case Set(key, value, ttl) => (files[key := Entry(value, ExpiryAt(now, ttl))], Ok)
    case Get(key) => (AfterRead(files, now, key), Found(if Present(files, now, key) then Some(files[key].value) else None))
    case Del(key) => (files - {key}, Ok)
    case Incr(key) =>
      var next := Plus1(if Present(files, now, key) then files[key].value else Number(0));
      (AfterRead(files, now, key)[key := Entry(next, None)], Count(next))
    case SetIfNotExists(key, value, ttl) =>
      if Present(files, now, key) then (files, Claimed(false))
      else (AfterRead(files, now, key)[key := Entry(value, ExpiryAt(now, ttl))], Claimed(true))
  }

  // ------------------------------------------------------------------ the store it stands in for

  /** A map in which expired entries are absent.  INCR keeps the expiry a key has, and refuses a value
   *  that is not an integer. */
  function RedisStep(store: Files, now: nat, op: Op): (Files, Reply) {
    var m := Live(store, now);
    match op
    case Set(key, value, ttl) => (m[key := Entry(value, ExpiryAt(now, ttl))], Ok)
    case Get(key) => (m, Found(if key in m then Some(m[key].value) else None))
    case Del(key) => (m - {key}, Ok)
    case Incr(key) =>
      if key !in m then (m[key := Entry(Number(1), None)], Count(Number(1)))
      else if !m[key].value.Number? then (m, NotAnInteger)
      else (m[key := Entry(Number(m[key].value.n + 1), m[key].expiresAt)], Count(Number(m[key].value.n + 1)))
    case SetIfNotExists(key, value, ttl) =>
      if key in m then (m, Claimed(false)) else (m[key := Entry(value, ExpiryAt(now, ttl))], Claimed(true))
  }

  // ------------------------------------------------------------------ refinement

  datatype Timed = Timed(elapsed: nat, op: Op)

  /** The fallback's files, the store, and the clock after a run of both. */
  datatype Pair = Pair(files: Files, store: Files, now: nat)

  function RunBoth(start: Pair, ops: seq<Timed>): Pair {
    if ops == [] then start
    else
      var p := RunBoth(start, ops[..|ops| - 1]);
      var t := ops[|ops| - 1];
      var now := p.now + t.elapsed;
      Pair(FallbackStep(p.files, now, t.op).0, RedisStep(p.store, now, t.op).0, now)
  }

  /** The two replies to the i-th operation. */
  function RepliesAt(start: Pair, ops: seq<Timed>, i: nat): (Reply, Reply)
    requires i < |ops|
  {
    var p := RunBoth(start, ops[..i]);
    var now := p.now + ops[i].elapsed;
    (FallbackStep(p.files, now, ops[i].op).1, RedisStep(p.store, now, ops[i].op).1)
  }

  /** An increment of a live key that has an expiry, or does not hold a number. */
  predicate AwkwardIncr(files: Files, now: nat, op: Op) {
    op.Incr? && Present(files, now, op.key) && (files[op.key].expiresAt.Some? || !files[op.key].value.Number?)
  }

  lemma LiveAt(files: Files, now: nat)
    ensures forall key :: key in Live(files, now) <==> Present(files, now, key)
    ensures forall key | Present(files, now, key) :: Live(files, now)[key] == files[key]
  {
  }

  lemma LivePut(files: Files, now: nat, key: string, entry: Entry)
    requires !Expired(entry, now)
    ensures Live(files[key := entry], now) == Live(files, now)[key := entry]
  {
  }

  lemma LiveDrop(files: Files, now: nat, key: string)
    ensures Live(files - {key}, now) == Live(files, now) - {key}
    ensures Live(AfterRead(files, now, key), now) == Live(files, now)
    ensures Live(Live(files, now), now) == Live(files, now)
  {
  }

  lemma StepAgrees(files: Files, store: Files, now: nat, op: Op)
    requires Live(files, now) == Live(store, now) && !AwkwardIncr(files, now, op)
    ensures FallbackStep(files, now, op).1 == RedisStep(store, now, op).1
    ensures Live(FallbackStep(files, now, op).0, now) == Live(RedisStep(store, now, op).0, now)
  {
    hide Live, AfterRead;
    var m := Live(store, now);
    LiveAt(files, now);
    LiveDrop(store, now, op.key);
    LiveDrop(m, now, op.key);
    LiveDrop(files, now, op.key);
    var read := AfterRead(files, now, op.key);
    match op
    case Set(key, value, ttl) =>
      LivePut(files, now, key, Entry(value, ExpiryAt(now, ttl)));
      LivePut(m, now, key, Entry(value, ExpiryAt(now, ttl)));
    case Incr(key) =>
      var next := Plus1(if Present(files, now, key) then files[key].value else Number(0));
      LivePut(read, now, key, Entry(next, None));
      LivePut(m, now, key, Entry(next, None));
    case SetIfNotExists(key, value, ttl) =>
      LivePut(read, now, key, Entry(value, ExpiryAt(now, ttl)));
      LivePut(m, now, key, Entry(value, ExpiryAt(now, ttl)));
    case _ =>
  }

  /** The fallback agrees with the store on one operation, in its reply and in what stays live, exactly
   *  when the operation is not an increment of a live key with an expiry or without a number. */
  lemma StepAgreesExactly(files: Files, store: Files, now: nat, op: Op)
    requires Live(files, now) == Live(store, now)
    ensures (&& FallbackStep(files, now, op).1 == RedisStep(store, now, op).1
             && Live(FallbackStep(files, now, op).0, now) == Live(RedisStep(store, now, op).0, now))
            <==> !AwkwardIncr(files, now, op)
  {
    if AwkwardIncr(files, now, op) {
      LiveAt(files, now);
      LiveAt(store, now);
      if files[op.key].value.Number? {
        var a, b := FallbackStep(files, now, op).0, RedisStep(store, now, op).0;
        LiveAt(a, now);
        LiveAt(b, now);
        assert Present(a, now, op.key) && a[op.key].expiresAt.None? && b[op.key].expiresAt.Some?;
      }
    } else {
      StepAgrees(files, store, now, op);
    }
  }

  lemma LiveLater(files: Files, store: Files, now: nat, later: nat)
    requires Live(files, now) == Live(store, now) && now <= later
    ensures Live(files, later) == Live(store, later)
  {
    LiveAt(files, now);
    LiveAt(store, now);
    LiveAt(files, later);
    LiveAt(store, later);
    forall key
      ensures Present(files, later, key) <==> Present(store, later, key)
      ensures Present(files, later, key) ==> files[key] == store[key]
    {
      assert Present(files, later, key) ==> Present(files, now, key);
      assert Present(store, later, key) ==> Present(store, now, key);
      assert Present(files, now, key) ==> Live(files, now)[key] == files[key] && Live(store, now)[key] == store[key];
    }
  }

  ghost predicate NoAwkwardIncr(start: Pair, ops: seq<Timed>) {
    forall k | 0 <= k < |ops| ::
      var p := RunBoth(start, ops[..k]);
      !AwkwardIncr(p.files, p.now + ops[k].elapsed, ops[k].op)
  }

  lemma NoAwkwardPrefix(start: Pair, ops: seq<Timed>, i: nat)
    requires NoAwkwardIncr(start, ops) && i <= |ops|
    ensures NoAwkwardIncr(start, ops[..i])
    ensures i < |ops| ==>
      var p := RunBoth(start, ops[..i]); !AwkwardIncr(p.files, p.now + ops[i].elapsed, ops[i].op)
  {
    hide RunBoth, AwkwardIncr;
    assert forall k | 0 <= k < i :: ops[..i][k] == ops[k] && ops[..i][..k] == ops[..k];
  }

  lemma {:induction false} RunAgrees(start: Pair, ops: seq<Timed>)
    requires Live(start.files, start.now) == Live(start.store, start.now) && NoAwkwardIncr(start, ops)
    ensures var p := RunBoth(start, ops); Live(p.files, p.now) == Live(p.store, p.now)
  {
    hide Live, FallbackStep, RedisStep, AwkwardIncr, NoAwkwardIncr;
    if ops != [] {
      var front, t := ops[..|ops| - 1], ops[|ops| - 1];
      NoAwkwardPrefix(start, ops, |ops| - 1);
      RunAgrees(start, front);
      var p := RunBoth(start, front);
      LiveLater(p.files, p.store, p.now, p.now + t.elapsed);
      StepAgrees(p.files, p.store, p.now + t.elapsed, t.op);
    }
  }

  /** For every sequence of set, get, del, setIfNotExists and increments of plain counters, with any
   *  time passing between them, lazy deletion gives the same replies as real expiry. */
  lemma FallbackRefinesStore(start: Pair, ops: seq<Timed>, i: nat)
    requires Live(start.files, start.now) == Live(start.store, start.now) && NoAwkwardIncr(start, ops) && i < |ops|
    ensures RepliesAt(start, ops, i).0 == RepliesAt(start, ops, i).1
  {
    hide Live, FallbackStep, RedisStep, AwkwardIncr, RunBoth, NoAwkwardIncr;
    NoAwkwardPrefix(start, ops, i);
    RunAgrees(start, ops[..i]);
    var p := RunBoth(start, ops[..i]);
    LiveLater(p.files, p.store, p.now, p.now + ops[i].elapsed);
    StepAgrees(p.files, p.store, p.now + ops[i].elapsed, ops[i].op);
  }

  // ------------------------------------------------------------------ locks

  /** The fallback alone, over a run. */
  function RunFiles(files: Files, start: nat, ops: seq<Timed>): (Files, nat) {
    if ops == [] then (files, start)
    else
      var (f, now) := RunFiles(files, start, ops[..|ops| - 1]);
      var t := ops[|ops| - 1];
      (FallbackStep(f, now + t.elapsed, t.op).0, now + t.elapsed)
  }

  function TimeAt(files: Files, start: nat, ops: seq<Timed>, i: nat): nat
    requires i < |ops|
  {
    RunFiles(files, start, ops[..i]).1 + ops[i].elapsed
  }

  predicate ClaimsAt(files: Files, start: nat, ops: seq<Timed>, i: nat, key: string)
    requires i < |ops|
  {
    && ops[i].op.SetIfNotExists? && ops[i].op.key == key
    && FallbackStep(RunFiles(files, start, ops[..i]).0, TimeAt(files, start, ops, i), ops[i].op).1 == Claimed(true)
  }

  /** Nobody overwrites or deletes the key. */
  predicate LeavesAlone(op: Op, key: string) {
    !((op.Set? || op.Del?) && op.key == key)
  }

  predicate HeldUntil(files: Files, key: string, until: nat) {
    key in files && (files[key].expiresAt.None? || until <= files[key].expiresAt.value)
  }

  lemma HeldStep(files: Files, now: nat, op: Op, key: string, until: nat)
    requires HeldUntil(files, key, until) && now < until && LeavesAlone(op, key)
    ensures HeldUntil(FallbackStep(files, now, op).0, key, until)
  {
  }

  lemma ClaimHolds(files: Files, now: nat, op: Op)
    requires op.SetIfNotExists? && FallbackStep(files, now, op).1 == Claimed(true)
    requires op.ttlSeconds.Some? && op.ttlSeconds.value > 0
    ensures HeldUntil(FallbackStep(files, now, op).0, op.key, now + op.ttlSeconds.value * 1000)
  {
  }

  lemma RunFilesSnoc(files: Files, start: nat, ops: seq<Timed>, i: nat)
    requires i < |ops|
    ensures RunFiles(files, start, ops[..i + 1]) ==
            (FallbackStep(RunFiles(files, start, ops[..i]).0, TimeAt(files, start, ops, i), ops[i].op).0, TimeAt(files, start, ops, i))
    ensures RunFiles(files, start, ops[..i]).1 <= TimeAt(files, start, ops, i)
  {
    assert ops[..i + 1][..i] == ops[..i];
  }

  lemma {:induction false} HeldRun(files: Files, start: nat, ops: seq<Timed>, i: nat, j: nat, key: string)
    requires i < j <= |ops| && ClaimsAt(files, start, ops, i, key) && ops[i].op.ttlSeconds.Some? && ops[i].op.ttlSeconds.value > 0
    requires forall k | i < k < j :: LeavesAlone(ops[k].op, key)
    ensures var until := TimeAt(files, start, ops, i) + ops[i].op.ttlSeconds.value * 1000;
            var (f, now) := RunFiles(files, start, ops[..j]);
            TimeAt(files, start, ops, i) <= now && (HeldUntil(f, key, until) || until <= now)
    decreases j
  {
    var until := TimeAt(files, start, ops, i) + ops[i].op.ttlSeconds.value * 1000;
    hide FallbackStep, HeldUntil, RunFiles, TimeAt, LeavesAlone;
    RunFilesSnoc(files, start, ops, j - 1);
    var f := RunFiles(files, start, ops[..j - 1]).0;
    var now := TimeAt(files, start, ops, j - 1);
    if i == j - 1 {
      ClaimHolds(f, now, ops[i].op);
    } else {
      HeldRun(files, start, ops, i, j - 1, key);
      if now < until {
        HeldStep(f, now, ops[j - 1].op, key, until);
      }
    }
  }

  /** Two successful acquireLock calls on one key are at least the first call's ttl apart, whatever else
   *  happens to the store, as long as nobody sets or deletes that key. */
  lemma LocksAreSpaced(files: Files, start: nat, ops: seq<Timed>, i: nat, j: nat, key: string)
    requires i < j < |ops| && ClaimsAt(files, start, ops, i, key) && ClaimsAt(files, start, ops, j, key)
    requires ops[i].op.ttlSeconds.Some? && ops[i].op.ttlSeconds.value > 0
    requires forall k | i < k < j :: LeavesAlone(ops[k].op, key)
    ensures TimeAt(files, start, ops, i) + ops[i].op.ttlSeconds.value * 1000 <= TimeAt(files, start, ops, j)
  {
    HeldRun(files, start, ops, i, j, key);
  }

  // ------------------------------------------------------------------ the services

  /** RedisService without a Redis URL: one file per key (the SHA-1 file names are injective). */
  class RedisService {
    var now: nat
    var files: Files

    constructor (now: nat)
      ensures this.now == now && files == map[]
    {
      this.now, files := now, map[];
    }

    method ReadFallbackEntry(key: string) returns (r: Option<Entry>)
      modifies this`files
      ensures files == AfterRead(old(files), now, key)
      ensures r == if Present(old(files), now, key) then Some(old(files)[key]) else None
    {
      if key !in files {
        return None;
      }
      var entry := files[key];
      if entry.expiresAt.Some? && entry.expiresAt.value <= now {
        files := files - {key};
        return None;
      }
      r := Some(entry);
    }

    method Set(key: string, value: Value, ttlSeconds: Option<nat>)
      modifies this`files
      ensures key in files && files[key].value == value
      ensures forall t: nat | now <= t :: Present(files, t, key) <==>
        ttlSeconds.None? || ttlSeconds.value == 0 || t < now + ttlSeconds.value * 1000
      ensures forall other | other != key :: other in files <==> other in old(files)
      ensures forall other | other != key && other in files :: files[other] == old(files)[other]
      ensures files == FallbackStep(old(files), now, Op.Set(key, value, ttlSeconds)).0
    {
      var expiresAt := if ttlSeconds.Some? && ttlSeconds.value != 0 then Some(now + ttlSeconds.value * 1000) else None;
      files := files[key := Entry(value, expiresAt)];
    }

    method Get(key: string) returns (r: Option<Value>)
      modifies this`files
      ensures (files, Found(r)) == FallbackStep(old(files), now, Op.Get(key))
    {
      var entry := ReadFallbackEntry(key);
      r := if entry.Some? then Some(entry.value.value) else None;
    }

    method Del(key: string)
      modifies this`files
      ensures key !in files
      ensures forall other | other != key :: other in files <==> other in old(files)
      ensures forall other | other != key && other in files :: files[other] == old(files)[other]
      ensures files == FallbackStep(old(files), now, Op.Del(key)).0
    {
      files := files - {key};
    }

    method Incr(key: string) returns (r: Value)
      modifies this`files
      ensures (files, Count(r)) == FallbackStep(old(files), now, Op.Incr(key))
    {
      var current := Get(key);
      r := Plus1(if current.Some? then current.value else Number(0));
      Set(key, r, None);
    }

    method SetIfNotExists(key: string, value: Value, ttlSeconds: Option<nat>) returns (claimed: bool)
      modifies this`files
      ensures (files, Claimed(claimed)) == FallbackStep(old(files), now, Op.SetIfNotExists(key, value, ttlSeconds))
    {
      var existing := ReadFallbackEntry(key);
      if existing.Some? {
        return false;
      }
      Set(key, value, ttlSeconds);
      claimed := true;
    }
  }

  class SchedulerService {
    const redis: RedisService

    constructor (redis: RedisService)
      ensures this.redis == redis
    {
      this.redis := redis;
    }

    method AcquireLock(key: string, ttlSeconds: nat) returns (acquired: bool)
      modifies redis`files
      ensures acquired <==> !Present(old(redis.files), redis.now, key)
      ensures (redis.files, Claimed(acquired)) ==
              FallbackStep(old(redis.files), redis.now, SetIfNotExists(key, Number(1), Some(ttlSeconds)))
    {
      acquired := redis.SetIfNotExists(key, Number(1), Some(ttlSeconds));
    }
  }

  /** What `remember` does: a live, non-empty entry that parses is returned and the store keeps its live
   *  entries; otherwise the computed value is returned and is the live entry until the ttl runs out. */
  ghost predicate Remembered(before: Files, after: Files, now: nat, parses: Value -> bool,
                             key: string, ttlSeconds: nat, computed: Value, r: Value) {
    var hit := Present(before, now, key) && before[key].value != Text("") && parses(before[key].value);
    && r == (if hit then before[key].value else computed)
    && Live(after, now) == if hit then Live(before, now)
                           else Live(before, now)[key := Entry(computed, ExpiryAt(now, Some(ttlSeconds)))]
  }

  /** The text of a stored version. */
  function VersionText(value: Value): string {
    match value
    case Number(n) => if n < 0 then "-" + CacheKeys.Decimal(-n) else CacheKeys.Decimal(n)
    case Text(s) => s
    case NotANumber => "NaN"
  }

  /** getNamespaceVersion: '1' when there is no live counter. */
  function NamespaceVersion(files: Files, now: nat, namespace: string): string {
    var k := CacheKeys.NamespaceVersionKey(namespace);
    if Present(files, now, k) then VersionText(files[k].value) else "1"
  }

  /** `parses` says whether JSON.parse accepts a cached string. */
  class CacheService {
    const redis: RedisService
    const parses: Value -> bool

    constructor (redis: RedisService, parses: Value -> bool)
      ensures this.redis == redis && this.parses == parses
    {
      this.redis, this.parses := redis, parses;
    }

    method Remember(key: string, ttlSeconds: nat, factory: () -> Value) returns (r: Value)
      modifies redis`files
      ensures Remembered(old(redis.files), redis.files, redis.now, parses, key, ttlSeconds, factory(), r)
    {
      ghost var before := redis.files;
      var cached := redis.Get(key);
      LiveAt(before, redis.now);
      LiveAt(redis.files, redis.now);
      if cached.Some? && cached.value != Text("") {
        if parses(cached.value) {
          return cached.value;
        }
        redis.Del(key);
      }
      r := factory();
      redis.Set(key, r, Some(ttlSeconds));
      LiveAt(redis.files, redis.now);
    }

    /** A versioned read is a read under the key of the namespace's version at its start. */
    method RememberVersioned(namespace: string, key: string, ttlSeconds: nat, factory: () -> Value) returns (r: Value)
      modifies redis`files
      ensures var k := CacheKeys.BuildVersionedKey(namespace, NamespaceVersion(old(redis.files), redis.now, namespace), key);
              Remembered(old(redis.files), redis.files, redis.now, parses, k, ttlSeconds, factory(), r)
    {
      hide CacheKeys.BuildVersionedKey, CacheKeys.NamespaceVersionKey, CacheKeys.Decimal, Live;
      ghost var before := redis.files;
      var counter := redis.Get(CacheKeys.NamespaceVersionKey(namespace));
      LiveAt(before, redis.now);
      LiveAt(redis.files, redis.now);
      LiveDrop(before, redis.now, CacheKeys.NamespaceVersionKey(namespace));
      var version := if counter.Some? then VersionText(counter.value) else "1";
      var k := CacheKeys.BuildVersionedKey(namespace, version, key);
      PresentAlike(before, redis.files, redis.now, k);
      r := Remember(k, ttlSeconds, factory);
    }

    method InvalidateNamespace(namespace: string)
      modifies redis`files
      ensures redis.files == FallbackStep(old(redis.files), redis.now, Op.Incr(CacheKeys.NamespaceVersionKey(namespace))).0
    {
      var _ := redis.Incr(CacheKeys.NamespaceVersionKey(namespace));
    }
  }

  lemma PresentAlike(a: Files, b: Files, now: nat, key: string)
    requires Live(a, now) == Live(b, now)
    ensures Present(a, now, key) <==> Present(b, now, key)
    ensures Present(a, now, key) ==> a[key] == b[key]
  {
    LiveAt(a, now);
    LiveAt(b, now);
    assert key in Live(a, now) <==> key in Live(b, now);
    assert Present(a, now, key) ==> Live(a, now)[key] == a[key] && Live(b, now)[key] == b[key];
  }
}
