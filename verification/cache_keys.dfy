/** Cache keys: the text a list query is cached under, and the key of a version of a namespace. */
module CacheKeys {
  import opened Wrappers
  import opened Text

  // ------------------------------------------------------------------ decimal text

  function Digit(n: nat): char
    requires n < 10
  {
    '0' + n as char
  }

  function Decimal(n: nat): (r: string)
    ensures r != "" && forall i | 0 <= i < |r| :: '0' <= r[i] <= '9'
  {
    if n < 10 then [Digit(n)] else Decimal(n / 10) + [Digit(n % 10)]
  }

  lemma {:induction false} DecimalInjective(m: nat, n: nat)
    requires Decimal(m) == Decimal(n)
    ensures m == n
  {
    var a, b := Decimal(m), Decimal(n);
    assert a[|a| - 1] == Digit(m % 10) && b[|b| - 1] == Digit(n % 10);
    if m >= 10 && n >= 10 {
      assert Decimal(m / 10) == a[..|a| - 1] && Decimal(n / 10) == b[..|b| - 1];
      DecimalInjective(m / 10, n / 10);
    }
  }

  // ------------------------------------------------------------------ versioned keys

  function NamespaceVersionKey(namespace: string): string { "cache:version:" + namespace }

  function BuildVersionedKey(namespace: string, version: string, key: string): string {
    "cache:" + namespace + ":v" + version + ":" + key
  }

  function VersionedKey(namespace: string, version: nat, key: string): string {
    BuildVersionedKey(namespace, Decimal(version), key)
  }

  /** Distinct namespaces, versions or keys never share a cache entry, for namespaces without a colon. */
  lemma VersionedKeyInjective(ns: string, v: nat, key: string, ns': string, v': nat, key': string)
    requires Without(ns, ':') && Without(ns', ':')
    requires VersionedKey(ns, v, key) == VersionedKey(ns', v', key')
    ensures ns == ns' && v == v' && key == key'
  {
    var rest, rest' := "v" + Decimal(v) + ":" + key, "v" + Decimal(v') + ":" + key';
    var a, b := VersionedKey(ns, v, key), VersionedKey(ns', v', key');
    assert a == "cache:" + (ns + [':'] + rest);
    assert b == "cache:" + (ns' + [':'] + rest');
    assert ns + [':'] + rest == a[6..] && ns' + [':'] + rest' == b[6..];
    SplitUnique(':', ns, rest, ns', rest');
    assert rest == ("v" + Decimal(v)) + [':'] + key && rest' == ("v" + Decimal(v')) + [':'] + key';
    SplitUnique(':', "v" + Decimal(v), key, "v" + Decimal(v'), key');
    assert Decimal(v) == ("v" + Decimal(v))[1..] && Decimal(v') == ("v" + Decimal(v'))[1..];
    DecimalInjective(v, v');
  }

  /** No cache entry is ever mistaken for a version counter. */
  lemma CounterKeyDisjoint(ns: string, v: nat, key: string, counted: string)
    requires Without(ns, ':') && Without(counted, ':')
    ensures VersionedKey(ns, v, key) != NamespaceVersionKey(counted)
  {
    var rest := "v" + Decimal(v) + ":" + key;
    assert rest[1 + |Decimal(v)|] == ':';
    assert !Without(rest, ':');
    if VersionedKey(ns, v, key) == NamespaceVersionKey(counted) {
      var a, b := VersionedKey(ns, v, key), NamespaceVersionKey(counted);
      assert a == "cache:" + (ns + [':'] + rest);
      assert b == "cache:" + ("version" + [':'] + counted);
      assert ns + [':'] + rest == a[6..] && "version" + [':'] + counted == b[6..];
      SplitUnique(':', ns, rest, "version", counted);
    }
  }

  lemma CounterKeyInjective(ns: string, ns': string)
    requires NamespaceVersionKey(ns) == NamespaceVersionKey(ns')
    ensures ns == ns'
  {
    assert ns == NamespaceVersionKey(ns)[14..] && ns' == NamespaceVersionKey(ns')[14..];
  }

  // ------------------------------------------------------------------ query keys

  /** Object.entries of a list query in insertion order, values as String() renders them. */
  type Entries = seq<(string, Option<string>)>
  type Fields = seq<(string, string)>

  function Defined(q: Entries): Fields {
    if q == [] then [] else (if q[0].1.Some? then [(q[0].0, q[0].1.value)] else []) + Defined(q[1..])
  }

  /** Insertion by name; on the field names in use localeCompare is code-unit order. */
  function Insert(f: (string, string), sorted: Fields): Fields {
    if sorted == [] || Precedes(f.0, sorted[0].0) then [f] + sorted else [sorted[0]] + Insert(f, sorted[1..])
  }

  function Sort(fields: Fields): Fields {
    if fields == [] then [] else Insert(fields[0], Sort(fields[1..]))
  }

  function Join(fields: Fields): string {
    if fields == [] then ""
    else if |fields| == 1 then fields[0].0 + ":" + fields[0].1
    else fields[0].0 + ":" + fields[0].1 + "|" + Join(fields[1..])
  }

  function SerializeCacheKey(q: Entries): string { Join(Sort(Defined(q))) }

  ghost predicate Sorted(fields: Fields) {
    forall i, j | 0 <= i < j < |fields| :: Precedes(fields[i].0, fields[j].0)
  }

  ghost predicate DistinctNames(fields: Fields) {
    forall i, j | 0 <= i < j < |fields| :: fields[i].0 != fields[j].0
  }

  lemma {:induction false} InsertKeeps(f: (string, string), fields: Fields)
    ensures multiset(Insert(f, fields)) == multiset{f} + multiset(fields)
  {
    hide Precedes;
    if fields != [] && !Precedes(f.0, fields[0].0) {
      InsertKeeps(f, fields[1..]);
      assert fields == [fields[0]] + fields[1..];
    }
  }

  ghost predicate Bounds(name: string, fields: Fields) { forall i | 0 <= i < |fields| :: Precedes(name, fields[i].0) }

  lemma ConsSorted(f: (string, string), fields: Fields)
    requires Sorted(fields) && Bounds(f.0, fields)
    ensures Sorted([f] + fields)
  {
    hide Precedes;
  }

  lemma {:induction false} InsertSorts(f: (string, string), fields: Fields)
    requires Sorted(fields)
    ensures Sorted(Insert(f, fields))
  {
    hide Precedes;
    if fields == [] {
    } else if Precedes(f.0, fields[0].0) {
      forall i | 0 <= i < |fields|
        ensures Precedes(f.0, fields[i].0)
      {
        if i > 0 {
          PrecedesTransitive(f.0, fields[0].0, fields[i].0);
        }
      }
      ConsSorted(f, fields);
    } else {
      var r := Insert(f, fields[1..]);
      InsertSorts(f, fields[1..]);
      InsertKeeps(f, fields[1..]);
      PrecedesTotal(f.0, fields[0].0);
      forall i | 0 <= i < |r|
        ensures Precedes(fields[0].0, r[i].0)
      {
        assert r[i] in multiset(r);
      }
      ConsSorted(fields[0], r);
    }
  }

  lemma {:induction false} SortSorts(fields: Fields)
    ensures Sorted(Sort(fields)) && multiset(Sort(fields)) == multiset(fields)
  {
    if fields != [] {
      SortSorts(fields[1..]);
      InsertSorts(fields[0], Sort(fields[1..]));
      InsertKeeps(fields[0], Sort(fields[1..]));
      assert fields == [fields[0]] + fields[1..];
    }
  }

  /** A name that comes first in both orders is the same name. */
  lemma LeastAgree(a: Fields, b: Fields)
    requires Sorted(a) && Sorted(b) && DistinctNames(a) && multiset(a) == multiset(b) && a != [] && b != []
    ensures a[0] == b[0]
  {
    hide Precedes;
    assert a[0] in multiset(b) && b[0] in multiset(a);
    var i :| 0 <= i < |b| && b[i] == a[0];
    var j :| 0 <= j < |a| && a[j] == b[0];
    PrecedesReflexive(a[0].0);
    PrecedesTotal(a[0].0, b[0].0);
    assert a[j].0 == a[0].0;
  }

  lemma TailSorted(fields: Fields)
    requires fields != [] && Sorted(fields)
    ensures Sorted(fields[1..]) && (DistinctNames(fields) ==> DistinctNames(fields[1..]))
  {
    hide Precedes;
  }

  lemma TailMultiset(fields: Fields)
    requires fields != []
    ensures multiset(fields[1..]) == multiset(fields) - multiset{fields[0]}
  {
    assert fields == [fields[0]] + fields[1..];
  }

  /** Sorted fields with distinct names are determined by which fields they are. */
  lemma {:induction false} SortedUnique(a: Fields, b: Fields)
    requires Sorted(a) && Sorted(b) && DistinctNames(a) && multiset(a) == multiset(b)
    ensures a == b
  {
    hide Sorted, DistinctNames;
    assert |multiset(a)| == |a| && |multiset(b)| == |b|;
    if a != [] {
      LeastAgree(a, b);
      TailSorted(a);
      TailSorted(b);
      TailMultiset(a);
      TailMultiset(b);
      SortedUnique(a[1..], b[1..]);
      assert a == [a[0]] + a[1..] && b == [b[0]] + b[1..];
    }
  }

  /** The key ignores the order in which the query's properties were inserted. */
  lemma InsertionOrderIrrelevant(p: Entries, q: Entries)
    requires multiset(Defined(p)) == multiset(Defined(q)) && DistinctNames(Sort(Defined(p)))
    ensures SerializeCacheKey(p) == SerializeCacheKey(q)
  {
    SortSorts(Defined(p));
    SortSorts(Defined(q));
    SortedUnique(Sort(Defined(p)), Sort(Defined(q)));
  }

  // ------------------------------------------------------------------ reading a key back

  /** The defined fields of a query whose field names are `names`, in that order. */
  function Present(names: seq<string>, values: seq<Option<string>>): Fields
    requires |names| == |values|
  {
    if names == [] then []
    else (if values[0].Some? then [(names[0], values[0].value)] else []) + Present(names[1..], values[1..])
  }

  function Cut(s: string): (i: nat)
    ensures i <= |s| && Without(s[..i], '|') && (i < |s| ==> s[i] == '|')
  {
    if s == "" || s[0] == '|' then 0 else 1 + Cut(s[1..])
  }

  /** Reads the fields back in order: a value ends at the next bar, except that the last field takes
   *  all the rest. */
  function Parse(names: seq<string>, text: string): (values: seq<Option<string>>)
    ensures |values| == |names|
  {
    if names == [] then []
    else
      var prefix := names[0] + ":";
      if !(prefix <= text) then [None] + Parse(names[1..], text)
      else
        var rest := text[|prefix|..];
        if |names| == 1 then [Some(rest)]
        else
          var i := Cut(rest);
          [Some(rest[..i])] + Parse(names[1..], if i < |rest| then rest[i + 1..] else "")
  }

  ghost predicate GoodNames(names: seq<string>) {
    && (forall i | 0 <= i < |names| :: Without(names[i], ':'))
    && (forall i, j | 0 <= i < j < |names| :: names[i] != names[j])
  }

  /** Every value but that of the last field is free of bars. */
  ghost predicate BarFreeButLast(values: seq<Option<string>>) {
    forall i | 0 <= i < |values| - 1 && values[i].Some? :: Without(values[i].value, '|')
  }

  lemma CutAt(s: string, rest: string)
    requires Without(s, '|')
    ensures Cut(s) == |s| && Cut(s + "|" + rest) == |s|
  {
    var t := s + "|" + rest;
    var i := Cut(s);
    var j := Cut(t);
    assert t[|s|] == '|';
    assert forall k | 0 <= k < |s| :: t[k] == s[k];
    assert forall k | 0 <= k < j :: t[..j][k] == t[k];
    assert j <= |s| && j < |t|;
  }

  /** The text of the later fields does not start with an earlier field's name. */
  lemma {:induction false} NotAPrefix(name: string, names: seq<string>, values: seq<Option<string>>)
    requires |names| == |values| && Without(name, ':')
    requires forall i | 0 <= i < |names| :: Without(names[i], ':') && names[i] != name
    ensures !(name + ":" <= Join(Present(names, values)))
  {
    if names != [] {
      assert forall i | 0 <= i < |names[1..]| :: names[1..][i] == names[i + 1];
      if values[0].None? {
        NotAPrefix(name, names[1..], values[1..]);
        assert Present(names, values) == Present(names[1..], values[1..]);
      } else {
        var text := Join(Present(names, values));
        var fields := Present(names, values);
        assert fields == [(names[0], values[0].value)] + Present(names[1..], values[1..]);
        assert fields[1..] == Present(names[1..], values[1..]);
        assert text == names[0] + [':'] + text[|names[0]| + 1..];
        if name + ":" <= text {
          assert text == name + [':'] + text[|name| + 1..];
          SplitUnique(':', names[0], text[|names[0]| + 1..], name, text[|name| + 1..]);
        }
      }
    }
  }

  /** The text of a present first field, and the text that Parse is left with once it has read it. */
  lemma FirstField(names: seq<string>, values: seq<Option<string>>)
    requires |names| == |values| > 0 && values[0].Some?
    ensures var later, prefix := Present(names[1..], values[1..]), names[0] + ":";
            Join(Present(names, values)) == prefix + (if later == [] then values[0].value else values[0].value + "|" + Join(later))
  {
    var later := Present(names[1..], values[1..]);
    assert ([(names[0], values[0].value)] + later)[1..] == later;
  }

  lemma RestAfter(v: string, tail: string)
    requires Without(v, '|')
    ensures Cut(v) == |v| && v[..|v|] == v
    ensures var rest := v + "|" + tail; Cut(rest) == |v| && rest[..|v|] == v && rest[|v| + 1..] == tail
  {
    hide Without;
    CutAt(v, tail);
    SplitText(v, tail);
  }

  lemma SplitText(v: string, tail: string)
    ensures var rest := v + "|" + tail; rest[..|v|] == v && rest[|v| + 1..] == tail
  {
  }

  /** What Parse makes of a present first field. */
  lemma ParsePresent(names: seq<string>, values: seq<Option<string>>)
    requires |names| == |values| > 1 && values[0].Some? && Without(values[0].value, '|')
    ensures Parse(names, Join(Present(names, values)))
         == [values[0]] + Parse(names[1..], Join(Present(names[1..], values[1..])))
  {
    hide Cut;
    var later, v := Present(names[1..], values[1..]), values[0].value;
    FirstField(names, values);
    var text, prefix := Join(Present(names, values)), names[0] + ":";
    assert text[|prefix|..] == if later == [] then v else v + "|" + Join(later);
    RestAfter(v, Join(later));
  }

  /** What Parse makes of an absent first field. */
  lemma ParseAbsent(names: seq<string>, values: seq<Option<string>>)
    requires |names| == |values| > 0 && GoodNames(names) && values[0].None?
    ensures Parse(names, Join(Present(names, values)))
         == [None] + Parse(names[1..], Join(Present(names[1..], values[1..])))
  {
    hide Cut;
    assert Present(names, values) == Present(names[1..], values[1..]);
    assert forall i | 0 <= i < |names[1..]| :: names[1..][i] == names[i + 1];
    NotAPrefix(names[0], names[1..], values[1..]);
  }

  lemma LaterFields(names: seq<string>, values: seq<Option<string>>)
    requires |names| == |values| > 0 && GoodNames(names)
    ensures GoodNames(names[1..])
    ensures BarFreeButLast(values)
       <==> (|values| > 1 && values[0].Some? ==> Without(values[0].value, '|')) && BarFreeButLast(values[1..])
  {
    hide Without;
    assert forall i | 0 <= i < |values[1..]| :: values[1..][i] == values[i + 1];
    assert forall i | 1 <= i < |values| :: values[i] == values[1..][i - 1];
  }

  lemma {:induction false} ParseReads(names: seq<string>, values: seq<Option<string>>)
    requires |names| == |values| && GoodNames(names) && BarFreeButLast(values)
    ensures Parse(names, Join(Present(names, values))) == values
  {
    hide Join, Without, Cut, BarFreeButLast, GoodNames;
    if names != [] {
      assert values == [values[0]] + values[1..];
      LaterFields(names, values);
      ParseReads(names[1..], values[1..]);
      if values[0].None? {
        ParseAbsent(names, values);
      } else if |names| > 1 {
        ParsePresent(names, values);
      } else {
        FirstField(names, values);
        var text, prefix := Join(Present(names, values)), names[0] + ":";
        assert text[|prefix|..] == values[0].value;
      }
    }
  }

  /** A bar in an earlier value is where the value ends, so the value is not read back. */
  lemma {:induction false} BarIsLost(names: seq<string>, values: seq<Option<string>>)
    requires |names| == |values| && GoodNames(names) && !BarFreeButLast(values)
    ensures Parse(names, Join(Present(names, values))) != values
  {
    hide Join, Without, Cut, GoodNames;
    LaterFields(names, values);
    if values[0].None? {
      ParseAbsent(names, values);
      BarIsLost(names[1..], values[1..]);
    } else if |names| > 1 && Without(values[0].value, '|') {
      ParsePresent(names, values);
      BarIsLost(names[1..], values[1..]);
    } else {
      LongBarLost(names, values);
    }
  }

  lemma LongBarLost(names: seq<string>, values: seq<Option<string>>)
    requires |names| == |values| > 1 && values[0].Some? && !Without(values[0].value, '|')
    ensures Parse(names, Join(Present(names, values)))[0] != values[0]
  {
    FirstField(names, values);
    var text, prefix := Join(Present(names, values)), names[0] + ":";
    var rest := text[|prefix|..];
    assert Without(rest[..Cut(rest)], '|');
  }

  /** Parse is a left inverse of the key on exactly the queries whose values, the last field's excepted,
   *  contain no bar. */
  lemma ParseReadsExactly(names: seq<string>, values: seq<Option<string>>)
    requires |names| == |values| && GoodNames(names)
    ensures Parse(names, Join(Present(names, values))) == values <==> BarFreeButLast(values)
  {
    if BarFreeButLast(values) {
      ParseReads(names, values);
    } else {
      BarIsLost(names, values);
    }
  }

  // ------------------------------------------------------------------ collisions

  ghost predicate TwoPresent(values: seq<Option<string>>) {
    exists i, j :: 0 <= i < j < |values| && values[i].Some? && values[j].Some?
  }

  /** The value ends in a bar, the field's name, a colon and y. */
  ghost predicate EndsIn(value: string, name: string, y: string) {
    exists x: string :: value == x + ("|" + (name + (":" + y)))
  }

  /** The value reads like a value, a bar and a later field. */
  ghost predicate Holds(value: string, name: string) { exists y: string :: EndsIn(value, name, y) }

  ghost predicate HoldsLaterField(names: seq<string>, values: seq<Option<string>>)
    requires |names| == |values|
  {
    exists i, k :: 0 <= i < k < |names| && values[i].Some? && Holds(values[i].value, names[k])
  }

  /** Another query over the same fields has the same key text. */
  ghost predicate SharesText(names: seq<string>, a: seq<Option<string>>, b: seq<Option<string>>)
    requires |names| == |a|
  {
    |b| == |names| && b != a && Join(Present(names, b)) == Join(Present(names, a))
  }

  function Absent(n: nat): (r: seq<Option<string>>)
    ensures |r| == n && forall i | 0 <= i < n :: r[i].None?
  {
    seq(n, i => None)
  }

  lemma {:induction false} PresentEmpty(names: seq<string>, values: seq<Option<string>>)
    requires |names| == |values|
    ensures Present(names, values) == [] <==> forall i | 0 <= i < |values| :: values[i].None?
  {
    if names != [] {
      PresentEmpty(names[1..], values[1..]);
      assert forall i | 1 <= i < |values| :: values[i] == values[1..][i - 1];
      assert forall i | 0 <= i < |values[1..]| :: values[1..][i] == values[i + 1];
    }
  }

  lemma ConsText(names: seq<string>, first: Option<string>, rest: seq<Option<string>>)
    requires |names| == 1 + |rest|
    ensures var later := Present(names[1..], rest);
            && Present(names, [first] + rest) == (if first.Some? then [(names[0], first.value)] else []) + later
            && Join(Present(names, [first] + rest)) ==
                 if first.None? then Join(later)
                 else if later == [] then names[0] + ":" + first.value
                 else names[0] + ":" + first.value + "|" + Join(later)
  {
    var later := Present(names[1..], rest);
    assert ([first] + rest)[1..] == rest;
    if first.Some? {
      assert ([(names[0], first.value)] + later)[1..] == later;
    } else {
      assert [] + later == later;
    }
  }

  lemma {:induction false} SingleText(names: seq<string>, k: nat, y: string)
    requires k < |names|
    ensures Join(Present(names, Absent(|names|)[k := Some(y)])) == names[k] + (":" + y)
  {
    var values := Absent(|names|)[k := Some(y)];
    if k == 0 {
      PresentEmpty(names[1..], values[1..]);
      ConsText(names, Some(y), values[1..]);
      assert values == [Some(y)] + values[1..];
    } else {
      SingleText(names[1..], k - 1, y);
      assert values == [None] + Absent(|names[1..]|)[k - 1 := Some(y)];
      ConsText(names, None, Absent(|names[1..]|)[k - 1 := Some(y)]);
    }
  }

  predicate LaterPresentIn(values: seq<Option<string>>, i: nat) { exists j :: i < j < |values| && values[j].Some? }

  lemma MergedText(name: string, v: string, later: string)
    ensures name + ":" + (v + "|" + later) == name + ":" + v + "|" + later
  {
  }

  lemma MergeFirst(names: seq<string>, a: seq<Option<string>>) returns (text: string)
    requires |names| == |a| > 0 && a[0].Some? && LaterPresentIn(a, 0)
    ensures SharesText(names, a, Absent(|a|)[0 := Some(text)])
  {
    hide Join, Present;
    var j :| 0 < j < |a| && a[j].Some?;
    assert a == [a[0]] + a[1..] && a[1..][j - 1] == a[j];
    var later, rest := Present(names[1..], a[1..]), Absent(|a| - 1);
    ConsText(names, a[0], a[1..]);
    PresentEmpty(names[1..], a[1..]);
    text := a[0].value + "|" + Join(later);
    PresentEmpty(names[1..], rest);
    ConsText(names, Some(text), rest);
    assert Absent(|a|)[0 := Some(text)] == [Some(text)] + rest;
    assert ([Some(text)] + rest)[j].None?;
    MergedText(names[0], a[0].value, Join(later));
  }

  /** Merging: the value at i takes in all that follows it. */
  lemma {:induction false} MergeAt(names: seq<string>, a: seq<Option<string>>, i: nat) returns (text: string)
    requires |names| == |a| && i < |a| && a[i].Some? && LaterPresentIn(a, i) && forall j | 0 <= j < i :: a[j].None?
    ensures SharesText(names, a, Absent(|a|)[i := Some(text)])
  {
    hide Join, Present;
    if i == 0 {
      text := MergeFirst(names, a);
    } else {
      assert a == [a[0]] + a[1..];
      ConsText(names, a[0], a[1..]);
      var j :| i < j < |a| && a[j].Some?;
      assert a[1..][j - 1] == a[j] && forall x | 0 <= x < i - 1 :: a[1..][x] == a[x + 1];
      text := MergeAt(names[1..], a[1..], i - 1);
      var rest := Absent(|a| - 1)[i - 1 := Some(text)];
      assert Absent(|a|)[i := Some(text)] == [None] + rest;
      ConsText(names, None, rest);
      assert ([None] + rest)[1..] == rest;
    }
  }

  lemma Cancel(n: string, v: string, w: string)
    requires n + v == n + w
    ensures v == w
  {
    assert v == (n + v)[|n|..] && w == (n + w)[|n|..];
  }

  lemma Reassociate(n: string, w: string, t: string)
    ensures n + w + "|" + t == n + (w + ("|" + t))
  {
  }

  lemma {:induction false} PairText(names: seq<string>, i: nat, k: nat, x: string, y: string)
    requires i < k < |names|
    ensures Join(Present(names, Absent(|names|)[i := Some(x)][k := Some(y)])) == names[i] + (":" + (x + ("|" + (names[k] + (":" + y)))))
  {
    hide Join, Present;
    var values := Absent(|names|)[i := Some(x)][k := Some(y)];
    if i > 0 {
      var rest := Absent(|names| - 1)[i - 1 := Some(x)][k - 1 := Some(y)];
      assert values == [None] + rest;
      PairText(names[1..], i - 1, k - 1, x, y);
      ConsText(names, None, rest);
    } else {
      var rest := Absent(|names| - 1)[k - 1 := Some(y)];
      assert values == [Some(x)] + rest;
      ConsText(names, Some(x), rest);
      SingleText(names[1..], k - 1, y);
      PresentEmpty(names[1..], rest);
      assert rest[k - 1].Some?;
      Reassociate(names[0] + ":", x, names[k] + (":" + y));
      assert names[0] + ":" + (x + ("|" + (names[k] + (":" + y)))) == names[0] + (":" + (x + ("|" + (names[k] + (":" + y)))));
    }
  }

  /** Splitting: an only value at i that ends in a later field may be read as the two. */
  lemma SplitAt(names: seq<string>, a: seq<Option<string>>, i: nat, k: nat, y: string) returns (x: string)
    requires |names| == |a| && i < k < |a| && a[i].Some? && EndsIn(a[i].value, names[k], y)
    requires forall j | 0 <= j < |a| && j != i :: a[j].None?
    ensures SharesText(names, a, Absent(|a|)[i := Some(x)][k := Some(y)])
  {
    hide Join, Present;
    x :| a[i].value == x + ("|" + (names[k] + (":" + y)));
    assert a == Absent(|a|)[i := a[i]];
    SingleText(names, i, a[i].value);
    PairText(names, i, k, x, y);
    assert Absent(|a|)[i := Some(x)][k := Some(y)][k] != a[k];
  }

  lemma EndsAfter(first: string, field: string)
    ensures first + "|" + field == first + ("|" + field)
  {
  }

  lemma EndsDeeper(first: string, before: string, field: string)
    ensures first + "|" + (before + ("|" + field)) == (first + "|" + before) + ("|" + field)
  {
  }

  lemma EndsInside(w: string, front: string, field: string)
    ensures w + ("|" + (front + ("|" + field))) == (w + "|" + front) + ("|" + field)
  {
  }

  lemma {:induction false} TextEnds(names: seq<string>, values: seq<Option<string>>) returns (k: nat, front: string)
    requires |names| == |values| && Present(names, values) != []
    ensures k < |names| && values[k].Some?
    ensures var field := names[k] + (":" + values[k].value);
            Join(Present(names, values)) == field || Join(Present(names, values)) == front + ("|" + field)
  {
    hide Join, Present;
    PresentEmpty(names, values);
    assert values == [values[0]] + values[1..];
    ConsText(names, values[0], values[1..]);
    var later := Present(names[1..], values[1..]);
    if later == [] {
      k, front := 0, "";
      PresentEmpty(names[1..], values[1..]);
      assert forall i | 0 <= i < |values[1..]| :: values[1..][i] == values[i + 1];
      assert values[0].Some?;
      assert names[0] + ":" + values[0].value == names[0] + (":" + values[0].value);
    } else {
      var j: nat, before: string := TextEnds(names[1..], values[1..]);
      k := j + 1;
      var field := names[k] + (":" + values[k].value);
      if values[0].None? {
        front := before;
      } else {
        var first := names[0] + ":" + values[0].value;
        if Join(later) == field {
          front := first;
          EndsAfter(first, field);
        } else {
          front := first + "|" + before;
          EndsDeeper(first, before, field);
        }
      }
    }
  }

  /** The other query has a later field. */
  lemma LaterPresent(names: seq<string>, a: seq<Option<string>>, b: seq<Option<string>>)
    requires |names| == |a| > 0 && SharesText(names, a, b)
    requires a[0].Some? && b[0].Some? && Present(names[1..], a[1..]) == []
    ensures Present(names[1..], b[1..]) != []
  {
    hide Join, Present;
    assert a == [a[0]] + a[1..] && b == [b[0]] + b[1..];
    ConsText(names, a[0], a[1..]);
    ConsText(names, b[0], b[1..]);
    PresentEmpty(names[1..], a[1..]);
    PresentEmpty(names[1..], b[1..]);
    assert (forall i | 0 <= i < |b[1..]| :: b[1..][i].None?) ==> a[1..] == b[1..];
    if names[0] + ":" + a[0].value == names[0] + ":" + b[0].value {
      Cancel(names[0] + ":", a[0].value, b[0].value);
    }
  }

  /** If the first value is all there is and another query has the same text, the value ends in the last
   *  field of that query. */
  lemma OnlyFirstEnds(names: seq<string>, a: seq<Option<string>>, b: seq<Option<string>>) returns (k: nat)
    requires |names| == |a| > 0 && SharesText(names, a, b)
    requires a[0].Some? && b[0].Some? && Present(names[1..], a[1..]) == []
    ensures 0 < k < |names| && b[k].Some? && EndsIn(a[0].value, names[k], b[k].value)
  {
    hide Join, Present;
    LaterPresent(names, a, b);
    assert a == [a[0]] + a[1..] && b == [b[0]] + b[1..];
    ConsText(names, a[0], a[1..]);
    ConsText(names, b[0], b[1..]);
    var j: nat, front: string := TextEnds(names[1..], b[1..]);
    k := j + 1;
    assert b[1..][j] == b[k] && names[1..][j] == names[k];
    var field, later := names[k] + (":" + b[k].value), Join(Present(names[1..], b[1..]));
    Reassociate(names[0] + ":", b[0].value, later);
    Cancel(names[0] + ":", a[0].value, b[0].value + ("|" + later));
    if later == field {
      assert a[0].value == b[0].value + ("|" + field);
    } else {
      EndsInside(b[0].value, front, field);
      assert a[0].value == (b[0].value + "|" + front) + ("|" + field);
    }
  }

  lemma {:induction false} FirstPresent(values: seq<Option<string>>) returns (i: nat)
    requires exists j :: 0 <= j < |values| && values[j].Some?
    ensures i < |values| && values[i].Some? && forall j | 0 <= j < i :: values[j].None?
  {
    i := 0;
    if values[0].None? {
      var j :| 0 <= j < |values| && values[j].Some?;
      assert values[1..][j - 1] == values[j];
      var k := FirstPresent(values[1..]);
      i := k + 1;
    }
  }

  lemma TailFields(names: seq<string>, a: seq<Option<string>>)
    requires |names| == |a| > 0 && a[0].None?
    ensures TwoPresent(a) <==> TwoPresent(a[1..])
    ensures HoldsLaterField(names, a) <==> HoldsLaterField(names[1..], a[1..])
  {
    hide Holds;
    if TwoPresent(a) {
      var i, j :| 0 <= i < j < |a| && a[i].Some? && a[j].Some?;
      assert a[1..][i - 1] == a[i] && a[1..][j - 1] == a[j];
    }
    if TwoPresent(a[1..]) {
      var i, j :| 0 <= i < j < |a[1..]| && a[1..][i].Some? && a[1..][j].Some?;
      assert a[1..][i] == a[i + 1] && a[1..][j] == a[j + 1];
    }
    if HoldsLaterField(names, a) {
      var i, k :| 0 <= i < k < |names| && a[i].Some? && Holds(a[i].value, names[k]);
      assert a[1..][i - 1] == a[i] && names[1..][k - 1] == names[k];
    }
    if HoldsLaterField(names[1..], a[1..]) {
      var i, k :| 0 <= i < k < |names[1..]| && a[1..][i].Some? && Holds(a[1..][i].value, names[1..][k]);
      assert a[1..][i] == a[i + 1] && names[1..][k] == names[k + 1];
    }
  }

  lemma StartsWithName(names: seq<string>, values: seq<Option<string>>)
    requires |names| == |values| > 0 && values[0].Some?
    ensures names[0] + ":" <= Join(Present(names, values))
  {
    FirstField(names, values);
  }

  lemma LaterNames(names: seq<string>)
    requires names != [] && GoodNames(names)
    ensures GoodNames(names[1..]) && Without(names[0], ':')
    ensures forall i | 0 <= i < |names[1..]| :: Without(names[1..][i], ':') && names[1..][i] != names[0]
  {
    hide Without;
    assert forall i | 0 <= i < |names[1..]| :: names[1..][i] == names[i + 1];
  }

  /** If another query has the same text and no two fields are present, the one value holds a later field. */
  lemma {:induction false} SharedIsSplit(names: seq<string>, a: seq<Option<string>>, b: seq<Option<string>>)
    requires |names| == |a| && GoodNames(names) && !TwoPresent(a) && SharesText(names, a, b)
    ensures HoldsLaterField(names, a)
  {
    hide Join, Present, Without, GoodNames, EndsIn;
    if names != [] {
      LaterNames(names);
      assert a == [a[0]] + a[1..] && b == [b[0]] + b[1..];
      ConsText(names, a[0], a[1..]);
      ConsText(names, b[0], b[1..]);
      assert forall x | 0 <= x < |a[1..]| :: a[1..][x] == a[x + 1];
      if a[0].None? {
        NotAPrefix(names[0], names[1..], a[1..]);
        if b[0].Some? {
          StartsWithName(names, b);
        }
        TailFields(names, a);
        SharedIsSplit(names[1..], a[1..], b[1..]);
      } else {
        NotAPrefix(names[0], names[1..], b[1..]);
        StartsWithName(names, a);
        PresentEmpty(names[1..], a[1..]);
        var k := OnlyFirstEnds(names, a, b);
        assert Holds(a[0].value, names[k]);
      }
    }
  }

  /** With two fields present, the first value may be read as taking in the rest. */
  lemma MergeTwo(names: seq<string>, a: seq<Option<string>>)
    requires |names| == |a| && TwoPresent(a)
    ensures exists b :: SharesText(names, a, b)
  {
    hide SharesText;
    var j, k :| 0 <= j < k < |a| && a[j].Some? && a[k].Some?;
    var i := FirstPresent(a);
    var text := MergeAt(names, a, i);
  }

  /** An only value that holds a later field may be read as two values. */
  lemma SplitOne(names: seq<string>, a: seq<Option<string>>)
    requires |names| == |a| && !TwoPresent(a) && HoldsLaterField(names, a)
    ensures exists b :: SharesText(names, a, b)
  {
    hide SharesText, EndsIn;
    var i, k :| 0 <= i < k < |names| && a[i].Some? && Holds(a[i].value, names[k]);
    var y: string :| EndsIn(a[i].value, names[k], y);
    var x := SplitAt(names, a, i, k, y);
  }

  /** Over fields with usable names, a query shares its key text with another one exactly when two of its
   *  fields are present, or its only value holds a bar, the name of a later field and a colon. */
  lemma SharesExactly(names: seq<string>, a: seq<Option<string>>)
    requires |names| == |a| && GoodNames(names)
    ensures (exists b :: SharesText(names, a, b)) <==> TwoPresent(a) || HoldsLaterField(names, a)
  {
    hide SharesText, TwoPresent, HoldsLaterField, GoodNames;
    if TwoPresent(a) {
      MergeTwo(names, a);
    } else if HoldsLaterField(names, a) {
      SplitOne(names, a);
    } else if b :| SharesText(names, a, b) {
      SharedIsSplit(names, a, b);
    }
  }

  // ------------------------------------------------------------------ the three services

  const BRAND_FIELDS := ["isActive", "limit", "organizationId", "page", "search"]
  const ORGANIZATION_FIELDS := ["isActive", "limit", "page", "search"]
  const COMPANY_FIELDS := ["companyType", "country", "limit", "page", "search"]

  ghost predicate NamesSorted(names: seq<string>) {
    forall i, j | 0 <= i < j < |names| :: Precedes(names[i], names[j])
  }

  lemma HeadsDecide(names: seq<string>)
    requires forall i | 0 <= i < |names| :: names[i] != "" && Without(names[i], ':')
    requires forall i, j | 0 <= i < j < |names| :: names[i][0] < names[j][0]
    ensures GoodNames(names) && NamesSorted(names)
  {
    hide Without;
    assert forall i, j | 0 <= i < j < |names| :: names[i] != names[j] && Precedes(names[i], names[j]);
  }

  lemma WordsWithoutColon()
    ensures Without("isActive", ':') && Without("limit", ':') && Without("organizationId", ':')
    ensures Without("page", ':') && Without("search", ':') && Without("companyType", ':') && Without("country", ':')
  {
  }

  lemma CompanyBeforeCountry()
    ensures Precedes("companyType", "country") && "companyType" != "country"
  {
    var a, b := "companyType", "country";
    assert a[0] == b[0] && a[1..][0] == b[1..][0] && a[1..][1..][0] < b[1..][1..][0];
    assert Precedes(a[1..][1..], b[1..][1..]);
    assert Precedes(a[1..], b[1..]);
  }

  /** The field lists are sorted and usable; the free-text search field comes last in each. */
  lemma FieldListsGood(names: seq<string>)
    requires names in {BRAND_FIELDS, ORGANIZATION_FIELDS, COMPANY_FIELDS}
    ensures GoodNames(names) && |names| > 0 && names[|names| - 1] == "search"
    ensures NamesSorted(names)
  {
    hide Without, Precedes, NamesSorted, GoodNames;
    WordsWithoutColon();
    if names == COMPANY_FIELDS {
      CompanyFieldsGood();
    } else {
      HeadsDecide(names);
    }
  }

  lemma CompanyFieldsGood()
    ensures GoodNames(COMPANY_FIELDS) && NamesSorted(COMPANY_FIELDS)
  {
    hide Without, Precedes;
    WordsWithoutColon();
    CompanyBeforeCountry();
    var names := COMPANY_FIELDS;
    var tail, rest := ["country", "limit", "page", "search"], ["companyType", "limit", "page", "search"];
    HeadsDecide(tail);
    HeadsDecide(rest);
    forall i, j | 0 <= i < j < |names|
      ensures Precedes(names[i], names[j]) && names[i] != names[j]
    {
      if i > 0 {
        assert names[i] == tail[i - 1] && names[j] == tail[j - 1];
      } else if j > 1 {
        assert names[i] == rest[0] && names[j] == rest[j - 1];
      }
    }
  }

  lemma PresentNames(names: seq<string>, values: seq<Option<string>>)
    requires |names| == |values|
    ensures forall i | 0 <= i < |Present(names, values)| :: Present(names, values)[i].0 in names
  {
  }

  lemma {:induction false} PresentSorted(names: seq<string>, values: seq<Option<string>>)
    requires |names| == |values| && GoodNames(names)
    requires NamesSorted(names)
    ensures Sorted(Present(names, values)) && DistinctNames(Present(names, values))
  {
    if names != [] {
      assert forall i | 0 <= i < |names[1..]| :: names[1..][i] == names[i + 1];
      PresentSorted(names[1..], values[1..]);
      PresentNames(names[1..], values[1..]);
    }
  }

  /** The entries of a query over the given fields, whatever their order. */
  ghost predicate IsQuery(names: seq<string>, q: Entries, values: seq<Option<string>>) {
    |names| == |values| && multiset(Defined(q)) == multiset(Present(names, values))
  }

  lemma KeyIsJoin(names: seq<string>, p: Entries, a: seq<Option<string>>)
    requires IsQuery(names, p, a) && GoodNames(names) && NamesSorted(names)
    ensures SerializeCacheKey(p) == Join(Present(names, a))
  {
    PresentSorted(names, a);
    SortSorts(Defined(p));
    SortedUnique(Present(names, a), Sort(Defined(p)));
  }

  lemma QueryKeysDoNotCollide(names: seq<string>, p: Entries, q: Entries, a: seq<Option<string>>, b: seq<Option<string>>)
    requires names in {BRAND_FIELDS, ORGANIZATION_FIELDS, COMPANY_FIELDS}
    requires IsQuery(names, p, a) && IsQuery(names, q, b) && BarFreeButLast(a) && BarFreeButLast(b)
    requires SerializeCacheKey(p) == SerializeCacheKey(q)
    ensures a == b
  {
    FieldListsGood(names);
    KeyIsJoin(names, p, a);
    KeyIsJoin(names, q, b);
    ParseReads(names, a);
    ParseReads(names, b);
  }

  function FieldsOf(namespace: string): seq<string> {
    if namespace == "brands" then BRAND_FIELDS else if namespace == "organizations" then ORGANIZATION_FIELDS else COMPANY_FIELDS
  }

  lemma NamespacesWithoutColon()
    ensures Without("brands", ':') && Without("organizations", ':') && Without("companies", ':')
  {
  }

  /** Two list queries that are cached in one entry are of the same service, at the same version, and
   *  are the same query, if the values before the search text contain no bar. */
  lemma ListEntriesDoNotCollide(ns: string, v: nat, p: Entries, a: seq<Option<string>>,
                                ns': string, v': nat, q: Entries, b: seq<Option<string>>)
    requires ns in {"brands", "organizations", "companies"} && ns' in {"brands", "organizations", "companies"}
    requires IsQuery(FieldsOf(ns), p, a) && IsQuery(FieldsOf(ns'), q, b) && BarFreeButLast(a) && BarFreeButLast(b)
    requires VersionedKey(ns, v, "findAll:" + SerializeCacheKey(p)) == VersionedKey(ns', v', "findAll:" + SerializeCacheKey(q))
    ensures ns == ns' && v == v' && a == b
  {
    hide SerializeCacheKey, IsQuery, BarFreeButLast, VersionedKey, Without;
    NamespacesWithoutColon();
    var k, k' := SerializeCacheKey(p), SerializeCacheKey(q);
    VersionedKeyInjective(ns, v, "findAll:" + k, ns', v', "findAll:" + k');
    assert k == ("findAll:" + k)[8..] && k' == ("findAll:" + k')[8..];
    QueryKeysDoNotCollide(FieldsOf(ns), p, q, a, b);
  }

  // ------------------------------------------------------------------ typed queries

  /** The texts String() makes of a number that is not NaN, of a boolean, and the texts of UUIDs. */
  predicate NumberText(s: string) {
    s == "Infinity" || forall i | 0 <= i < |s| :: '0' <= s[i] <= '9' || s[i] in {'.', '+', '-', 'e'}
  }

  function BoolText(b: bool): string { if b then "true" else "false" }

  predicate UuidText(s: string) {
    forall i | 0 <= i < |s| :: '0' <= s[i] <= '9' || 'a' <= s[i] <= 'f' || 'A' <= s[i] <= 'F' || s[i] == '-'
  }

  /** ListBrandsQueryDto and ListOrganizationsQueryDto after validation; numbers are given by their texts. */
  datatype BrandQuery = BrandQuery(isActive: Option<bool>, limit: Option<string>, organizationId: Option<string>,
                                   page: Option<string>, search: Option<string>)
  datatype OrganizationQuery = OrganizationQuery(isActive: Option<bool>, limit: Option<string>, page: Option<string>,
                                                 search: Option<string>)

  predicate ValidBrandQuery(q: BrandQuery) {
    && (q.limit.Some? ==> NumberText(q.limit.value)) && (q.page.Some? ==> NumberText(q.page.value))
    && (q.organizationId.Some? ==> UuidText(q.organizationId.value))
  }

  predicate ValidOrganizationQuery(q: OrganizationQuery) {
    (q.limit.Some? ==> NumberText(q.limit.value)) && (q.page.Some? ==> NumberText(q.page.value))
  }

  function FlagText(flag: Option<bool>): Option<string> {
    if flag.None? then None else Some(BoolText(flag.value))
  }

  function BrandValues(q: BrandQuery): seq<Option<string>> {
    [FlagText(q.isActive), q.limit, q.organizationId, q.page, q.search]
  }

  function OrganizationValues(q: OrganizationQuery): seq<Option<string>> {
    [FlagText(q.isActive), q.limit, q.page, q.search]
  }

  lemma TypedTextsBarFree(number: string, id: string, flag: bool)
    ensures NumberText(number) ==> Without(number, '|')
    ensures UuidText(id) ==> Without(id, '|')
    ensures Without(BoolText(flag), '|')
    ensures BoolText(true) != BoolText(false)
  {
    assert BoolText(true)[0] == 't' && BoolText(false)[0] == 'f';
  }

  lemma FlagTextInjective(a: Option<bool>, b: Option<bool>)
    requires FlagText(a) == FlagText(b)
    ensures a == b
  {
    TypedTextsBarFree("", "", true);
  }

  lemma BrandValuesBarFree(q: BrandQuery)
    requires ValidBrandQuery(q)
    ensures BarFreeButLast(BrandValues(q))
  {
    hide NumberText, UuidText, BoolText, Without;
    var values := BrandValues(q);
    forall i | 0 <= i < |values| - 1 && values[i].Some?
      ensures Without(values[i].value, '|')
    {
      TypedTextsBarFree(values[i].value, values[i].value, i == 0 && q.isActive.value);
    }
  }

  lemma OrganizationValuesBarFree(q: OrganizationQuery)
    requires ValidOrganizationQuery(q)
    ensures BarFreeButLast(OrganizationValues(q))
  {
    hide NumberText, BoolText, Without;
    var values := OrganizationValues(q);
    forall i | 0 <= i < |values| - 1 && values[i].Some?
      ensures Without(values[i].value, '|')
    {
      TypedTextsBarFree(values[i].value, "", i == 0 && q.isActive.value);
    }
  }

  /** Two brand list queries that are cached in one entry are the same query at the same version. */
  lemma BrandQueriesDoNotCollide(v: nat, p: Entries, x: BrandQuery, v': nat, q: Entries, y: BrandQuery)
    requires ValidBrandQuery(x) && ValidBrandQuery(y)
    requires IsQuery(BRAND_FIELDS, p, BrandValues(x)) && IsQuery(BRAND_FIELDS, q, BrandValues(y))
    requires VersionedKey("brands", v, "findAll:" + SerializeCacheKey(p)) == VersionedKey("brands", v', "findAll:" + SerializeCacheKey(q))
    ensures v == v' && x == y
  {
    hide SerializeCacheKey, IsQuery, BarFreeButLast, VersionedKey, ValidBrandQuery, FlagText;
    BrandValuesBarFree(x);
    BrandValuesBarFree(y);
    ListEntriesDoNotCollide("brands", v, p, BrandValues(x), "brands", v', q, BrandValues(y));
    var a, b := BrandValues(x), BrandValues(y);
    assert a[0] == b[0] && a[1] == b[1] && a[2] == b[2] && a[3] == b[3] && a[4] == b[4];
    FlagTextInjective(x.isActive, y.isActive);
  }

  /** Likewise for organization list queries. */
  lemma OrganizationQueriesDoNotCollide(v: nat, p: Entries, x: OrganizationQuery, v': nat, q: Entries, y: OrganizationQuery)
    requires ValidOrganizationQuery(x) && ValidOrganizationQuery(y)
    requires IsQuery(ORGANIZATION_FIELDS, p, OrganizationValues(x)) && IsQuery(ORGANIZATION_FIELDS, q, OrganizationValues(y))
    requires VersionedKey("organizations", v, "findAll:" + SerializeCacheKey(p))
          == VersionedKey("organizations", v', "findAll:" + SerializeCacheKey(q))
    ensures v == v' && x == y
  {
    hide SerializeCacheKey, IsQuery, BarFreeButLast, VersionedKey, ValidOrganizationQuery, FlagText;
    OrganizationValuesBarFree(x);
    OrganizationValuesBarFree(y);
    assert "organizations" != "brands" by { assert |"organizations"| != |"brands"|; }
    ListEntriesDoNotCollide("organizations", v, p, OrganizationValues(x), "organizations", v', q, OrganizationValues(y));
    var a, b := OrganizationValues(x), OrganizationValues(y);
    assert a[0] == b[0] && a[1] == b[1] && a[2] == b[2] && a[3] == b[3];
    FlagTextInjective(x.isActive, y.isActive);
  }

  lemma {:induction false} EntriesPresent(names: seq<string>, values: seq<Option<string>>)
    requires |names| == |values|
    ensures Defined(seq(|names|, i requires 0 <= i < |names| => (names[i], values[i]))) == Present(names, values)
  {
    if names != [] {
      EntriesPresent(names[1..], values[1..]);
      var q := seq(|names|, i requires 0 <= i < |names| => (names[i], values[i]));
      assert q[1..] == seq(|names[1..]|, i requires 0 <= i < |names[1..]| => (names[1..][i], values[1..][i]));
    }
  }

  /** Another query of the service has the key of p, which lists the values a. */
  ghost predicate KeyShared(names: seq<string>, p: Entries, a: seq<Option<string>>) {
    exists q, b :: IsQuery(names, q, b) && b != a && SerializeCacheKey(q) == SerializeCacheKey(p)
  }

  /** For the field lists of the three services and values of any texts: a query's key is shared with
   *  another query exactly when two of its fields are present, or its only value holds a bar, the name
   *  of a later field and a colon.  Types are what keeps brand and organization queries apart. */
  lemma KeySharedExactly(names: seq<string>, p: Entries, a: seq<Option<string>>)
    requires names in {BRAND_FIELDS, ORGANIZATION_FIELDS, COMPANY_FIELDS} && |names| == |a| && IsQuery(names, p, a)
    ensures KeyShared(names, p, a) <==> TwoPresent(a) || HoldsLaterField(names, a)
  {
    hide KeyShared, IsQuery, SharesText, TwoPresent, HoldsLaterField, GoodNames, NamesSorted;
    FieldListsGood(names);
    SharesExactly(names, a);
    if KeyShared(names, p, a) {
      var b := KeyThenText(names, p, a);
    }
    if b :| SharesText(names, a, b) {
      TextThenKey(names, p, a, b);
    }
  }

  lemma KeyThenText(names: seq<string>, p: Entries, a: seq<Option<string>>) returns (b: seq<Option<string>>)
    requires GoodNames(names) && NamesSorted(names) && IsQuery(names, p, a) && KeyShared(names, p, a)
    ensures |names| == |a| && SharesText(names, a, b)
  {
    hide SerializeCacheKey, GoodNames, NamesSorted, Join, Present, Defined;
    var q: Entries;
    q, b :| IsQuery(names, q, b) && b != a && SerializeCacheKey(q) == SerializeCacheKey(p);
    KeyIsJoin(names, p, a);
    KeyIsJoin(names, q, b);
  }

  lemma TextThenKey(names: seq<string>, p: Entries, a: seq<Option<string>>, b: seq<Option<string>>)
    requires GoodNames(names) && NamesSorted(names) && IsQuery(names, p, a) && |names| == |a| && SharesText(names, a, b)
    ensures KeyShared(names, p, a)
  {
    hide SerializeCacheKey, GoodNames, NamesSorted, Join, Present, Defined;
    var q := seq(|names|, i requires 0 <= i < |names| => (names[i], b[i]));
    EntriesPresent(names, b);
    assert IsQuery(names, q, b);
    KeyIsJoin(names, p, a);
    KeyIsJoin(names, q, b);
  }

  /** ListCompaniesQueryDto after validation.  `number` says which texts String() gives of the numbers
   *  that pass; all that matters of them is that they hold no bar. */
  datatype CompanyQuery = CompanyQuery(companyType: Option<string>, country: Option<string>, limit: Option<string>,
                                       page: Option<string>, search: Option<string>)

  function CompanyValues(q: CompanyQuery): seq<Option<string>> { [q.companyType, q.country, q.limit, q.page, q.search] }

  ghost predicate Numbers(number: string -> bool) { forall s | number(s) :: NumberText(s) }

  predicate ValidCompanyQuery(number: string -> bool, q: CompanyQuery) {
    (q.limit.Some? ==> number(q.limit.value)) && (q.page.Some? ==> number(q.page.value))
  }

  /** The value reads as if the field k with the value y followed; fields 2 and 3 hold numbers. */
  ghost predicate EndsInField(number: string -> bool, value: string, k: nat, y: string)
    requires k < 5
  {
    EndsIn(value, COMPANY_FIELDS[k], y) && (k == 2 || k == 3 ==> number(y))
  }

  ghost predicate EndsInLaterField(number: string -> bool, values: seq<Option<string>>, i: nat)
    requires |values| == 5 && i < 5 && values[i].Some?
  {
    exists k: nat, y :: i < k < 5 && EndsInField(number, values[i].value, k, y)
  }

  /** companyType or country is followed by a present field, or ends in text that reads like one. */
  ghost predicate Ambiguous(number: string -> bool, q: CompanyQuery) {
    var values := CompanyValues(q);
    exists i: nat :: i < 2 && values[i].Some? && (LaterPresentIn(values, i) || EndsInLaterField(number, values, i))
  }

  /** Another valid company query has the same key text. */
  ghost predicate CompanyTextShared(number: string -> bool, q: CompanyQuery, other: CompanyQuery) {
    && ValidCompanyQuery(number, other) && other != q
    && Join(Present(COMPANY_FIELDS, CompanyValues(other))) == Join(Present(COMPANY_FIELDS, CompanyValues(q)))
  }

  function QueryOf(values: seq<Option<string>>): CompanyQuery
    requires |values| == 5
    ensures CompanyValues(QueryOf(values)) == values
  {
    CompanyQuery(values[0], values[1], values[2], values[3], values[4])
  }

  lemma ValuesInjective(a: CompanyQuery, b: CompanyQuery)
    requires CompanyValues(a) == CompanyValues(b)
    ensures a == b
  {
    var x, y := CompanyValues(a), CompanyValues(b);
    assert x[0] == y[0] && x[1] == y[1] && x[2] == y[2] && x[3] == y[3] && x[4] == y[4];
  }

  /** A field that the one text does not begin with is absent from the other. */
  lemma BothAbsent(names: seq<string>, a: seq<Option<string>>, b: seq<Option<string>>)
    requires |names| == |a| > 0 && GoodNames(names) && SharesText(names, a, b) && a[0].None?
    ensures b[0].None? && SharesText(names[1..], a[1..], b[1..])
  {
    hide Join, Present, Without;
    LaterNames(names);
    assert a == [a[0]] + a[1..] && b == [b[0]] + b[1..];
    ConsText(names, a[0], a[1..]);
    ConsText(names, b[0], b[1..]);
    NotAPrefix(names[0], names[1..], a[1..]);
    if b[0].Some? {
      StartsWithName(names, b);
    }
  }

  lemma BothPresent(names: seq<string>, a: seq<Option<string>>, b: seq<Option<string>>)
    requires |names| == |a| > 0 && GoodNames(names) && SharesText(names, a, b) && a[0].Some?
    ensures b[0].Some?
  {
    hide Join, Present, Without;
    LaterNames(names);
    assert b == [b[0]] + b[1..];
    ConsText(names, b[0], b[1..]);
    StartsWithName(names, a);
    NotAPrefix(names[0], names[1..], b[1..]);
  }

  lemma NumbersBarFree(number: string -> bool, values: seq<Option<string>>)
    requires Numbers(number) && |values| == 3
    requires (values[0].Some? ==> number(values[0].value)) && (values[1].Some? ==> number(values[1].value))
    ensures BarFreeButLast(values)
  {
    hide NumberText, Without;
    forall i | 0 <= i < |values| - 1 && values[i].Some?
      ensures Without(values[i].value, '|')
    {
      TypedTextsBarFree(values[i].value, "", true);
    }
  }

  lemma SharedIsAmbiguous(number: string -> bool, q: CompanyQuery, other: CompanyQuery)
    requires Numbers(number) && ValidCompanyQuery(number, q) && CompanyTextShared(number, q, other)
    ensures Ambiguous(number, q)
  {
    hide Join, Present, Without, GoodNames, BarFreeButLast, Numbers, EndsIn;
    var names, a, b := COMPANY_FIELDS, CompanyValues(q), CompanyValues(other);
    CompanyFieldsGood();
    if a == b {
      ValuesInjective(q, other);
    }
    assert SharesText(names, a, b);
    if a[0].Some? {
      if !LaterPresentIn(a, 0) {
        assert forall j | 0 <= j < |a[1..]| :: a[1..][j] == a[j + 1];
        PresentEmpty(names[1..], a[1..]);
        BothPresent(names, a, b);
        var k := OnlyFirstEnds(names, a, b);
        assert EndsInField(number, a[0].value, k, b[k].value);
        assert EndsInLaterField(number, a, 0);
      }
    } else {
      BothAbsent(names, a, b);
      LaterNames(names);
      var names1, a1, b1 := names[1..], a[1..], b[1..];
      if a[1].Some? {
        if !LaterPresentIn(a, 1) {
          assert forall j | 0 <= j < |a1[1..]| :: a1[1..][j] == a[j + 2];
          PresentEmpty(names1[1..], a1[1..]);
          BothPresent(names1, a1, b1);
          var k := OnlyFirstEnds(names1, a1, b1);
          assert b1[k] == b[k + 1] && names1[k] == names[k + 1];
          assert EndsInField(number, a[1].value, k + 1, b[k + 1].value);
          assert EndsInLaterField(number, a, 1);
        }
      } else {
        BothAbsent(names1, a1, b1);
        LaterNames(names1);
        NumbersBarFree(number, a1[1..]);
        NumbersBarFree(number, b1[1..]);
        ParseReads(names1[1..], a1[1..]);
        ParseReads(names1[1..], b1[1..]);
      }
    }
  }

  lemma AmbiguousIsShared(number: string -> bool, q: CompanyQuery) returns (other: CompanyQuery)
    requires ValidCompanyQuery(number, q) && Ambiguous(number, q)
    ensures CompanyTextShared(number, q, other)
  {
    hide Join, Present, EndsIn;
    var names, a := COMPANY_FIELDS, CompanyValues(q);
    var i: nat :| i < 2 && a[i].Some? && (LaterPresentIn(a, i) || EndsInLaterField(number, a, i));
    var f := if a[0].Some? then 0 else 1;
    if LaterPresentIn(a, f) {
      var text := MergeAt(names, a, f);
      other := QueryOf(Absent(5)[f := Some(text)]);
    } else {
      assert i == f;
      assert forall j | 0 <= j < |a| && j != i :: a[j].None?;
      var k: nat, y :| i < k < 5 && EndsInField(number, a[i].value, k, y);
      var x := SplitAt(names, a, i, k, y);
      other := QueryOf(Absent(5)[i := Some(x)][k := Some(y)]);
    }
  }

  /** Another valid company query has the key of p. */
  ghost predicate CompanyKeyShared(number: string -> bool, p: Entries, x: CompanyQuery) {
    exists q, y :: ValidCompanyQuery(number, y) && y != x && IsQuery(COMPANY_FIELDS, q, CompanyValues(y))
                   && SerializeCacheKey(q) == SerializeCacheKey(p)
  }

  /** A valid company query shares its key with another valid one exactly when its companyType or country
   *  is followed by a present field, or ends in a bar, a later field's name, a colon and a text that the
   *  field may have. */
  lemma CompanyKeySharedExactly(number: string -> bool, p: Entries, x: CompanyQuery)
    requires Numbers(number) && ValidCompanyQuery(number, x) && IsQuery(COMPANY_FIELDS, p, CompanyValues(x))
    ensures CompanyKeyShared(number, p, x) <==> Ambiguous(number, x)
  {
    hide Join, Present, Defined, SerializeCacheKey, GoodNames, NamesSorted, Ambiguous, Numbers;
    CompanyFieldsGood();
    KeyIsJoin(COMPANY_FIELDS, p, CompanyValues(x));
    if CompanyKeyShared(number, p, x) {
      var q, y :| ValidCompanyQuery(number, y) && y != x && IsQuery(COMPANY_FIELDS, q, CompanyValues(y))
                  && SerializeCacheKey(q) == SerializeCacheKey(p);
      KeyIsJoin(COMPANY_FIELDS, q, CompanyValues(y));
      SharedIsAmbiguous(number, x, y);
    }
    if Ambiguous(number, x) {
      var y := AmbiguousIsShared(number, x);
      var q := seq(|COMPANY_FIELDS|, i requires 0 <= i < |COMPANY_FIELDS| => (COMPANY_FIELDS[i], CompanyValues(y)[i]));
      EntriesPresent(COMPANY_FIELDS, CompanyValues(y));
      assert IsQuery(COMPANY_FIELDS, q, CompanyValues(y));
      KeyIsJoin(COMPANY_FIELDS, q, CompanyValues(y));
    }
  }

  /** Company queries do collide: a company type may carry a bar and the text of a country field. */
  lemma CompanyKeysCollide()
    ensures var p: Entries := [("companyType", Some("A|country:B"))];
            var q: Entries := [("companyType", Some("A")), ("country", Some("B"))];
            Defined(p) != Defined(q) && SerializeCacheKey(p) == SerializeCacheKey(q)
  {
    var q: Entries := [("companyType", Some("A")), ("country", Some("B"))];
    var f, g := ("companyType", "A"), ("country", "B");
    assert Defined([q[1]]) == [g];
    assert q[1..] == [q[1]];
    assert Defined(q) == [f, g];
    var p: Entries := [("companyType", Some("A|country:B"))];
    assert Defined(p) == [("companyType", "A|country:B")];
    CompanyBeforeCountry();
    assert [f, g][1..] == [g];
    assert Sort([g]) == [g];
    assert Sort([f, g]) == [f, g];
    assert "companyType" + ":" + "A" + "|" + ("country" + ":" + "B") == "companyType" + ":" + "A|country:B";
  }
}
