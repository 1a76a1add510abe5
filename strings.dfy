/** The few Python string operations the extractor relies on: `str.lower`
    (on ASCII), `str.find`, `str.split` with one separator, and
    `str.replace`. */
module Strings {

  // ---------------------------------------------------------------------
  // Prefixes and occurrences
  // ---------------------------------------------------------------------

  predicate StartsWith(s: string, p: string) {
    |p| <= |s| && s[..|p|] == p
  }

  /** `x` occurs in `s` starting at index `i`. */
  predicate OccursAt(s: string, x: string, i: int) {
    0 <= i && i + |x| <= |s| && s[i..i + |x|] == x
  }

  /** Python's `x in s` for strings. */
  predicate Contains(s: string, x: string) {
    exists i | 0 <= i <= |s| :: OccursAt(s, x, i)
  }

  lemma OccursInSuffix(a: string, b: string, x: string, i: int)
    requires |a| <= i && OccursAt(a + b, x, i)
    ensures OccursAt(b, x, i - |a|)
  {
    assert (a + b)[i..i + |x|] == b[i - |a|..i - |a| + |x|];
  }

  lemma OccursShifted(c: char, b: string, x: string, i: int)
    requires OccursAt(b, x, i)
    ensures OccursAt([c] + b, x, i + 1)
  {
    assert ([c] + b)[i + 1..i + 1 + |x|] == b[i..i + |x|];
  }

  // ---------------------------------------------------------------------
  // str.lower, restricted to ASCII
  // ---------------------------------------------------------------------

  predicate IsAsciiUpper(c: char) {
    'A' <= c <= 'Z'
  }

  predicate IsAsciiLower(c: char) {
    'a' <= c <= 'z'
  }

  predicate IsAsciiLetter(c: char) {
    IsAsciiUpper(c) || IsAsciiLower(c)
  }

  predicate IsAsciiDigit(c: char) {
    '0' <= c <= '9'
  }

  function LowerChar(c: char): char {
    if IsAsciiUpper(c) then (c as int + 32) as char else c
  }

  /** `s.lower()` on ASCII text: each upper-case letter becomes its
      lower-case letter, every other character stays. */
  function Lower(s: string): (r: string)
    ensures |r| == |s|
    ensures forall i :: 0 <= i < |s| ==> !IsAsciiUpper(r[i])
    ensures forall i :: 0 <= i < |s| && !IsAsciiUpper(s[i]) ==> r[i] == s[i]
    ensures forall i :: 0 <= i < |s| && IsAsciiUpper(s[i]) ==> r[i] as int == s[i] as int + 32
  {
    seq(|s|, i requires 0 <= i < |s| => LowerChar(s[i]))
  }

  /** Text with no lower-case ASCII letter (the service codes are such). */
  predicate NoAsciiLower(s: string) {
    forall i :: 0 <= i < |s| ==> !IsAsciiLower(s[i])
  }

  /** Lower-casing loses nothing on text that has no lower-case letters. */
  lemma LowerInjective(a: string, b: string)
    requires NoAsciiLower(a) && NoAsciiLower(b)
    requires Lower(a) == Lower(b)
    ensures a == b
  {
    forall i | 0 <= i < |a|
      ensures a[i] == b[i]
    {
      assert Lower(a)[i] == LowerChar(a[i]);
      assert Lower(b)[i] == LowerChar(b[i]);
    }
  }

  // ---------------------------------------------------------------------
  // str.find for one character, or for the first of several
  // ---------------------------------------------------------------------

  /** Index of the first character of `s` in `cs`, or `|s|` when there is
      none (Python's -1). */
  function IndexOfAny(s: string, cs: set<char>): (r: nat)
    ensures r <= |s|
    ensures forall j :: 0 <= j < r ==> s[j] !in cs
    ensures r < |s| ==> s[r] in cs
  {
    if |s| == 0 then 0
    else if s[0] in cs then 0
    else 1 + IndexOfAny(s[1..], cs)
  }

  function IndexOf(s: string, c: char): (r: nat)
    ensures r <= |s|
    ensures forall j :: 0 <= j < r ==> s[j] != c
    ensures r < |s| ==> s[r] == c
  {
    IndexOfAny(s, {c})
  }

  /** The first hit in `a + b` is in `a` when `a` has one, else in `b`. */
  lemma IndexOfAnyAppend(a: string, b: string, cs: set<char>)
    ensures IndexOfAny(a + b, cs) ==
      if IndexOfAny(a, cs) < |a| then IndexOfAny(a, cs) else |a| + IndexOfAny(b, cs)
  {
    var i := IndexOfAny(a, cs);
    var r := IndexOfAny(a + b, cs);
    if i < |a| {
      assert (a + b)[i] == a[i];
      forall j | 0 <= j < i
        ensures (a + b)[j] !in cs
      {
        assert (a + b)[j] == a[j];
      }
    } else {
      var k := IndexOfAny(b, cs);
      forall j | 0 <= j < |a| + k
        ensures (a + b)[j] !in cs
      {
        if j < |a| {
          assert (a + b)[j] == a[j];
        } else {
          assert (a + b)[j] == b[j - |a|];
        }
      }
      if k < |b| {
        assert (a + b)[|a| + k] == b[k];
      }
    }
  }

  // ---------------------------------------------------------------------
  // str.split(sep) and its inverse sep.join(parts)
  // ---------------------------------------------------------------------

  /** `s.split(sep)`: the maximal pieces between separators, in order;
      an empty text gives one empty piece. */
  function Split(s: string, sep: char): (parts: seq<string>)
    ensures |parts| > 0
    decreases |s|
  {
    if |s| == 0 then [""]
    else
      var tail := Split(s[1..], sep);
      if s[0] == sep then [""] + tail
      else [[s[0]] + tail[0]] + tail[1..]
  }

  /** `sep.join(parts)`. */
  function Join(parts: seq<string>, sep: char): string
    requires |parts| > 0
  {
    if |parts| == 1 then parts[0] else parts[0] + [sep] + Join(parts[1..], sep)
  }

  lemma {:induction false} JoinSplit(s: string, sep: char)
    ensures Join(Split(s, sep), sep) == s
    decreases |s|
  {
    if |s| > 0 {
      var tail := Split(s[1..], sep);
      JoinSplit(s[1..], sep);
      if s[0] == sep {
        assert Split(s, sep) == [""] + tail;
        assert ([""] + tail)[1..] == tail;
      } else {
        var parts := Split(s, sep);
        assert parts == [[s[0]] + tail[0]] + tail[1..];
        if |tail| == 1 {
          assert Join(parts, sep) == [s[0]] + tail[0];
        } else {
          assert parts[1..] == tail[1..];
          assert Join(tail, sep) == tail[0] + [sep] + Join(tail[1..], sep);
        }
        assert s == [s[0]] + s[1..];
      }
    }
  }

  /** A piece free of the separator, followed by the separator. */
  lemma {:induction false} SplitPiece(p: string, rest: string, sep: char)
    requires sep !in p
    ensures Split(p + [sep] + rest, sep) == [p] + Split(rest, sep)
    decreases |p|
  {
    if |p| == 0 {
      assert p + [sep] + rest == [sep] + rest;
      assert ([sep] + rest)[1..] == rest;
    } else {
      var s := p + [sep] + rest;
      assert s[0] == p[0];
      assert s[1..] == p[1..] + [sep] + rest;
      SplitPiece(p[1..], rest, sep);
      assert [p[0]] + p[1..] == p;
    }
  }

  lemma {:induction false} SplitWhole(p: string, sep: char)
    requires sep !in p
    ensures Split(p, sep) == [p]
    decreases |p|
  {
    if |p| > 0 {
      SplitWhole(p[1..], sep);
      assert [p[0]] + p[1..] == p;
    }
  }

  lemma {:induction false} SplitJoin(parts: seq<string>, sep: char)
    requires |parts| > 0
    requires forall k :: 0 <= k < |parts| ==> sep !in parts[k]
    ensures Split(Join(parts, sep), sep) == parts
    decreases |parts|
  {
    if |parts| == 1 {
      SplitWhole(parts[0], sep);
    } else {
      SplitJoin(parts[1..], sep);
      SplitPiece(parts[0], Join(parts[1..], sep), sep);
      assert [parts[0]] + parts[1..] == parts;
    }
  }

  // ---------------------------------------------------------------------
  // str.replace(pattern, replacement): every non-overlapping occurrence, left to right
  // ---------------------------------------------------------------------

  /** `s.replace(pattern, replacement)`: every character of the result
      comes from `s` or from the replacement. */
  function ReplaceAll(s: string, pattern: string, replacement: string): (r: string)
    requires |pattern| > 0
    ensures forall c :: c in r ==> c in s || c in replacement
    decreases |s|
  {
    if |s| < |pattern| then s
    else if s[..|pattern|] == pattern then replacement + ReplaceAll(s[|pattern|..], pattern, replacement)
    else [s[0]] + ReplaceAll(s[1..], pattern, replacement)
  }

  /** Text free of `pattern` is returned unchanged. */
  lemma {:induction false} ReplaceAllAbsent(s: string, pattern: string, replacement: string)
    requires |pattern| > 0
    requires !Contains(s, pattern)
    ensures ReplaceAll(s, pattern, replacement) == s
    decreases |s|
  {
    if |s| >= |pattern| {
      assert !OccursAt(s, pattern, 0);
      ContainsTail(s, pattern);
      ReplaceAllAbsent(s[1..], pattern, replacement);
      assert [s[0]] + s[1..] == s;
    }
  }

  lemma ContainsTail(s: string, x: string)
    requires |s| > 0
    ensures Contains(s[1..], x) ==> Contains(s, x)
  {
    if Contains(s[1..], x) {
      var i :| 0 <= i <= |s[1..]| && OccursAt(s[1..], x, i);
      OccursShifted(s[0], s[1..], x, i);
      assert [s[0]] + s[1..] == s;
    }
  }

  const Insecure: string := "http://"
  const Secure: string := "https://"

  /** Rewriting never produces a prefix without an 'h' unless that prefix
      was already there. */
  lemma {:induction false} RewriteKeepsPrefix(t: string, p: string)
    requires 'h' !in p
    ensures StartsWith(ReplaceAll(t, Insecure, Secure), p) ==> StartsWith(t, p)
    decreases |t|
  {
    var r := ReplaceAll(t, Insecure, Secure);
    if |p| > 0 && |t| >= |Insecure| {
      if t[..|Insecure|] == Insecure {
        assert r[0] == 'h' && p[0] != 'h';
      } else {
        var r1 := ReplaceAll(t[1..], Insecure, Secure);
        assert r == [t[0]] + r1;
        RewriteKeepsPrefix(t[1..], p[1..]);
        if StartsWith(r, p) {
          assert r1[..|p| - 1] == r[1..|p|];
          assert StartsWith(r1, p[1..]);
          assert t[..|p|] == [t[0]] + t[1..][..|p| - 1];
          assert p == [p[0]] + p[1..];
        }
      }
    }
  }

  /** An "http://" after text without an 'h' is rewritten in place: the
      text before it is kept and the rest is rewritten in turn. */
  lemma {:induction false} RewriteAfterPrefix(a: string, rest: string)
    requires 'h' !in a
    ensures ReplaceAll(a + Insecure + rest, Insecure, Secure) == a + Secure + ReplaceAll(rest, Insecure, Secure)
    decreases |a|
  {
    var t := a + Insecure + rest;
    if |a| == 0 {
      assert t == Insecure + rest;
      assert t[..|Insecure|] == Insecure;
      assert t[|Insecure|..] == rest;
    } else {
      assert t[0] == a[0] && a[0] != 'h';
      assert t[..|Insecure|] != Insecure by {
        assert t[..|Insecure|][0] == t[0];
      }
      assert t[1..] == a[1..] + Insecure + rest;
      RewriteAfterPrefix(a[1..], rest);
      assert [a[0]] + a[1..] == a;
    }
  }

  /** An occurrence past the end of `a` in `a + b` is an occurrence in `b`. */
  lemma OccursPast(a: string, b: string, x: string, i: int)
    requires |a| <= i
    ensures OccursAt(a + b, x, i) ==> OccursAt(b, x, i - |a|)
  {
    if OccursAt(a + b, x, i) {
      OccursInSuffix(a, b, x, i);
    }
  }

  /** After `replace("http://", "https://")` no "http://" is left: every
      insecure occurrence was rewritten and none is created. */
  lemma {:induction false} RewriteLeavesNoInsecure(t: string)
    ensures !Contains(ReplaceAll(t, Insecure, Secure), Insecure)
    decreases |t|
  {
    var r := ReplaceAll(t, Insecure, Secure);
    if |t| < |Insecure| {
      assert r == t;
    } else if t[..|Insecure|] == Insecure {
      var r1 := ReplaceAll(t[|Insecure|..], Insecure, Secure);
      assert r == Secure + r1;
      RewriteLeavesNoInsecure(t[|Insecure|..]);
      forall i | 0 <= i <= |r|
        ensures !OccursAt(r, Insecure, i)
      {
        if i < |Secure| {
          if i + |Insecure| <= |r| {
            if i == 0 {
              assert r[i..i + |Insecure|][4] == Secure[4];
            } else {
              assert r[i..i + |Insecure|][0] == Secure[i];
            }
          }
        } else {
          OccursPast(Secure, r1, Insecure, i);
        }
      }
    } else {
      var r1 := ReplaceAll(t[1..], Insecure, Secure);
      assert r == [t[0]] + r1;
      RewriteLeavesNoInsecure(t[1..]);
      forall i | 0 <= i <= |r|
        ensures !OccursAt(r, Insecure, i)
      {
        if i == 0 {
          if t[0] == 'h' {
            assert t[..|Insecure|] == [t[0]] + t[1..][..|Insecure| - 1];
            assert !StartsWith(t[1..], Insecure[1..]);
            RewriteKeepsPrefix(t[1..], Insecure[1..]);
            assert !StartsWith(r1, Insecure[1..]);
            if |r| >= |Insecure| {
              assert r[1..|Insecure|] == r1[..|Insecure| - 1];
            }
          } else {
            assert r[0] != Insecure[0];
          }
        } else {
          OccursPast([t[0]], r1, Insecure, i);
        }
      }
    }
  }

  /** Rewriting an already rewritten text changes nothing. */
  lemma RewriteIdempotent(t: string)
    ensures ReplaceAll(ReplaceAll(t, Insecure, Secure), Insecure, Secure)
         == ReplaceAll(t, Insecure, Secure)
  {
    RewriteLeavesNoInsecure(t);
    ReplaceAllAbsent(ReplaceAll(t, Insecure, Secure), Insecure, Secure);
  }
}
