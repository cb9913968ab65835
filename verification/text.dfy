/** The string functions that several services share: trim, toLowerCase, their composition, order and separators. */
module Text {

  /** What String.prototype.trim removes: ECMAScript white space and line terminators. */
  predicate IsSpace(c: char) {
    var n := c as int;
    || 9 <= n <= 13 || n == 32 || n == 0xA0 || n == 0x1680 || 0x2000 <= n <= 0x200A
    || n == 0x2028 || n == 0x2029 || n == 0x202F || n == 0x205F || n == 0x3000 || n == 0xFEFF
  }

  function TrimStart(s: string): (r: string)
    ensures |r| <= |s| && r == s[|s| - |r|..]
    ensures r == [] || !IsSpace(r[0])
    ensures forall i | 0 <= i < |s| - |r| :: IsSpace(s[i])
  {
    if s != [] && IsSpace(s[0]) then TrimStart(s[1..]) else s
  }

  function TrimEnd(s: string): (r: string)
    ensures |r| <= |s| && r == s[..|r|]
    ensures r == [] || !IsSpace(r[|r| - 1])
    ensures forall i | |r| <= i < |s| :: IsSpace(s[i])
  {
    if s != [] && IsSpace(s[|s| - 1]) then TrimEnd(s[..|s| - 1]) else s
  }

  function Trim(s: string): string {
    TrimEnd(TrimStart(s))
  }

  /** toLowerCase on the letters A to Z; other characters are left alone. */
  function LowerChar(c: char): char {
    if 'A' <= c <= 'Z' then ((c as int) + 32) as char else c
  }

  function Lower(s: string): string {
    seq(|s|, i requires 0 <= i < |s| => LowerChar(s[i]))
  }

  /** value.trim().toLowerCase(), used for e-mail addresses and for organization and brand codes. */
  function Normalize(s: string): string {
    Lower(Trim(s))
  }

  ghost predicate Trimmed(s: string) {
    s == [] || (!IsSpace(s[0]) && !IsSpace(s[|s| - 1]))
  }

  lemma TrimIsTrimmed(s: string)
    ensures Trimmed(Trim(s))
    ensures Trimmed(s) ==> Trim(s) == s
  {
    var t := TrimStart(s);
    assert TrimEnd(t) != [] ==> TrimEnd(t)[0] == t[0];
  }

  /** Trimming drops spaces only. */
  lemma TrimDropsSpaces(s: string)
    ensures forall i | 0 <= i < |s| :: IsSpace(s[i]) || s[i] in Trim(s)
  {
    hide IsSpace;
    var t := TrimStart(s);
    var r := TrimEnd(t);
    forall i | 0 <= i < |s|
      ensures IsSpace(s[i]) || s[i] in r
    {
      var k := i - (|s| - |t|);
      if 0 <= k < |r| {
        assert r[k] == t[k] == s[i];
      } else if |r| <= k {
        assert t[k] == s[i];
      }
    }
  }

  predicate Blank(s: string) { forall i | 0 <= i < |s| :: IsSpace(s[i]) }

  lemma {:induction false} StartSkipsSpaces(before: string, s: string)
    requires Blank(before)
    ensures TrimStart(before + s) == TrimStart(s)
  {
    hide IsSpace;
    if before == "" {
      assert before + s == s;
    } else {
      assert (before + s)[1..] == before[1..] + s;
      StartSkipsSpaces(before[1..], s);
    }
  }

  lemma {:induction false} StartKeepsEnd(s: string, after: string)
    requires !Blank(s)
    ensures TrimStart(s + after) == TrimStart(s) + after
  {
    hide IsSpace;
    if IsSpace(s[0]) {
      assert (s + after)[1..] == s[1..] + after;
      StartKeepsEnd(s[1..], after);
    }
  }

  lemma {:induction false} EndSkipsSpaces(s: string, after: string)
    requires Blank(after)
    ensures TrimEnd(s + after) == TrimEnd(s)
  {
    hide IsSpace;
    if after == "" {
      assert s + after == s;
    } else {
      var front := after[..|after| - 1];
      assert (s + after)[..|s + after| - 1] == s + front;
      EndSkipsSpaces(s, front);
    }
  }

  lemma BlankConcat(a: string, b: string)
    requires Blank(a) && Blank(b)
    ensures Blank(a + b)
  {
    hide IsSpace;
  }

  lemma {:induction false} BlankTrims(s: string)
    requires Blank(s)
    ensures TrimStart(s) == "" && Trim(s) == ""
  {
    hide IsSpace;
    if s != "" {
      BlankTrims(s[1..]);
    }
  }

  /** Only a blank text is trimmed to nothing. */
  lemma BlankExactly(s: string)
    ensures Trim(s) == "" <==> Blank(s)
  {
    hide IsSpace, TrimStart, TrimEnd;
    if Blank(s) {
      BlankTrims(s);
    }
    if Trim(s) == "" {
      hide Trim;
      TrimDropsSpaces(s);
    }
  }

  /** Spaces around a text do not matter to trimming. */
  lemma TrimIgnoresSpaces(before: string, s: string, after: string)
    requires Blank(before) && Blank(after)
    ensures Trim(before + s + after) == Trim(s)
  {
    hide Blank, TrimStart, TrimEnd;
    assert before + s + after == before + (s + after);
    StartSkipsSpaces(before, s + after);
    if Blank(s) {
      BlankConcat(s, after);
      BlankTrims(s);
      BlankTrims(s + after);
    } else {
      StartKeepsEnd(s, after);
      EndSkipsSpaces(TrimStart(s), after);
    }
  }

  /** Normalising twice is normalising once, so a stored code compares equal to its own normal form. */
  lemma NormalizeIdempotent(s: string)
    ensures Normalize(Normalize(s)) == Normalize(s)
  {
    var t := Trim(s);
    TrimIsTrimmed(s);
    assert Trimmed(Lower(t));
    TrimIsTrimmed(Lower(t));
    assert Lower(Lower(t)) == Lower(t);
  }

  // ------------------------------------------------------------------ order

  /** Order by UTF-16 code units, a prefix first. */
  predicate Precedes(a: string, b: string) {
    if a == "" then true
    else if b == "" then false
    else if a[0] == b[0] then Precedes(a[1..], b[1..])
    else a[0] < b[0]
  }

  lemma PrecedesTotal(a: string, b: string)
    ensures Precedes(a, b) || Precedes(b, a)
    ensures Precedes(a, b) && Precedes(b, a) ==> a == b
  {
    if a != "" && b != "" && a[0] == b[0] {
      PrecedesTotal(a[1..], b[1..]);
      assert a == [a[0]] + a[1..] && b == [b[0]] + b[1..];
    }
  }

  lemma PrecedesTransitive(a: string, b: string, c: string)
    requires Precedes(a, b) && Precedes(b, c)
    ensures Precedes(a, c)
  {
    if a != "" && b != "" && c != "" && a[0] == b[0] == c[0] {
      PrecedesTransitive(a[1..], b[1..], c[1..]);
    }
  }

  lemma PrecedesReflexive(a: string)
    ensures Precedes(a, a)
  {
  }

  // ------------------------------------------------------------------ separators

  predicate Without(s: string, c: char) { forall i | 0 <= i < |s| :: s[i] != c }

  /** A text splits in one way only at its first separator. */
  lemma SplitUnique(sep: char, a: string, b: string, c: string, d: string)
    requires Without(a, sep) && Without(c, sep) && a + [sep] + b == c + [sep] + d
    ensures a == c && b == d
  {
    var s := a + [sep] + b;
    assert s[|a|] == sep && s[|c|] == sep;
    assert forall i | 0 <= i < |a| :: s[i] == a[i];
    assert forall i | 0 <= i < |c| :: s[i] == c[i];
    assert |a| == |c|;
    assert a == s[..|a|] && c == s[..|c|];
    assert b == s[|a| + 1..] && d == s[|c| + 1..];
  }
}
