/**
 * The JavaScript string primitives the generation client relies on:
 * `\s` and `String.prototype.trim`, `toUpperCase`, `split` with a
 * one-character separator, `indexOf`/regex literal search and `length`.
 * Strings are Dafny strings, whose characters are Unicode scalar values.
 */
module JsStrings {
  import opened Wrappers

  /** ECMAScript WhiteSpace or LineTerminator: what `\s` matches and what `trim` removes. */
  predicate IsWhitespace(c: char) {
    || c == '\t' || c == '\n' || c == '\U{B}' || c == '\U{C}' || c == '\r' || c == ' '
    || c == '\U{A0}' || c == '\U{1680}' || ('\U{2000}' <= c <= '\U{200A}')
    || c == '\U{2028}' || c == '\U{2029}' || c == '\U{202F}' || c == '\U{205F}'
    || c == '\U{3000}' || c == '\U{FEFF}'
  }

  /** ECMAScript LineTerminator: the characters a regex `.` does not match. */
  predicate IsLineTerminator(c: char) {
    c == '\n' || c == '\r' || c == '\U{2028}' || c == '\U{2029}'
  }

  /** Number of whitespace characters at the start of `s`. */
  function LeadingWhitespace(s: string): (k: nat)
    ensures k <= |s|
    ensures forall i :: 0 <= i < k ==> IsWhitespace(s[i])
    ensures k < |s| ==> !IsWhitespace(s[k])
  {
    if |s| == 0 || !IsWhitespace(s[0]) then 0 else 1 + LeadingWhitespace(s[1..])
  }

  /** Number of whitespace characters at the end of `s`. */
  function TrailingWhitespace(s: string): (k: nat)
    ensures k <= |s|
    ensures forall i :: |s| - k <= i < |s| ==> IsWhitespace(s[i])
    ensures k < |s| ==> !IsWhitespace(s[|s| - k - 1])
  {
    if |s| == 0 || !IsWhitespace(s[|s| - 1]) then 0 else 1 + TrailingWhitespace(s[..|s| - 1])
  }

  /** A string with no whitespace at either end. */
  predicate IsTrimmed(s: string) {
    s == [] || (!IsWhitespace(s[0]) && !IsWhitespace(s[|s| - 1]))
  }

  /** The bounds [lo, hi) of what `trim` keeps of `s`. */
  function TrimBounds(s: string): (b: (nat, nat))
    ensures b.0 <= b.1 <= |s|
    ensures forall i :: 0 <= i < |s| && (i < b.0 || b.1 <= i) ==> IsWhitespace(s[i])
    ensures b.0 < b.1 ==> !IsWhitespace(s[b.0]) && !IsWhitespace(s[b.1 - 1])
  {
    var lo := LeadingWhitespace(s);
    var t := s[lo..];
    (lo, |s| - TrailingWhitespace(t))
  }

  /** `s.trim()`: `s` without its leading and trailing whitespace. */
  function Trim(s: string): (r: string)
    ensures IsTrimmed(r)
    ensures |r| <= |s|
    ensures (forall i :: 0 <= i < |s| ==> IsWhitespace(s[i])) <==> r == []
  {
    var b := TrimBounds(s);
    s[b.0..b.1]
  }

  /** `s.toUpperCase()` on ASCII letters; every other character is kept. */
  function UpperChar(c: char): char {
    if 'a' <= c <= 'z' then (c as int - 32) as char else c
  }

  /** `s.toUpperCase()` on ASCII: lower-case letters become upper case, the rest is kept. */
  function ToUpper(s: string): (r: string)
    ensures |r| == |s|
    ensures forall i :: 0 <= i < |s| ==> !('a' <= r[i] <= 'z')
    ensures forall i :: 0 <= i < |s| && 'a' <= s[i] <= 'z' ==> 'A' <= r[i] <= 'Z' && r[i] as int + 32 == s[i] as int
    ensures forall i :: 0 <= i < |s| && !('a' <= s[i] <= 'z') ==> r[i] == s[i]
  {
    seq(|s|, i requires 0 <= i < |s| => UpperChar(s[i]))
  }

  /** Number of occurrences of `c` in `s`. */
  function Count(s: string, c: char): nat {
    if s == [] then 0 else (if s[0] == c then 1 else 0) + Count(s[1..], c)
  }

  /** `s.split(sep)` for a one-character separator. */
  function Split(s: string, sep: char): (parts: seq<string>)
    ensures |parts| == Count(s, sep) + 1
    ensures forall i :: 0 <= i < |parts| ==> sep !in parts[i]
  {
    if s == [] then [""]
    else
      var rest := Split(s[1..], sep);
      if s[0] == sep then [""] + rest else [[s[0]] + rest[0]] + rest[1..]
  }

  /** `parts.join(sep)`. */
  function Join(parts: seq<string>, sep: char): string {
    if parts == [] then ""
    else if |parts| == 1 then parts[0]
    else parts[0] + [sep] + Join(parts[1..], sep)
  }

  /** Splitting and joining again gives back the original string. */
  lemma {:induction false} JoinSplit(s: string, sep: char)
    ensures Join(Split(s, sep), sep) == s
  {
    if s != [] {
      var rest := Split(s[1..], sep);
      JoinSplit(s[1..], sep);
      if s[0] == sep {
        assert Split(s, sep) == [""] + rest;
        assert s == [sep] + s[1..];
      } else {
        var parts := Split(s, sep);
        assert parts == [[s[0]] + rest[0]] + rest[1..];
        if |rest| == 1 {
          assert parts == [[s[0]] + rest[0]];
        } else {
          assert parts[1..] == rest[1..];
          assert Join(rest, sep) == rest[0] + [sep] + Join(rest[1..], sep);
        }
      }
    }
  }

  /** A string without the separator is split into itself alone. */
  lemma {:induction false} SplitWithoutSeparator(s: string, sep: char)
    requires sep !in s
    ensures Split(s, sep) == [s]
  {
    if s != [] {
      assert sep !in s[1..] by {
        forall i | 0 <= i < |s| - 1 ensures s[1..][i] != sep { assert s[1..][i] == s[i + 1]; }
      }
      SplitWithoutSeparator(s[1..], sep);
      assert s == [s[0]] + s[1..];
    }
  }

  /** A separator-free first part is split off whole. */
  lemma {:induction false} SplitAfterPart(x: string, y: string, sep: char)
    requires sep !in x
    ensures Split(x + [sep] + y, sep) == [x] + Split(y, sep)
  {
    if x == [] {
      assert x + [sep] + y == [sep] + y;
      assert ([sep] + y)[1..] == y;
    } else {
      var s := x + [sep] + y;
      assert s[1..] == x[1..] + [sep] + y;
      assert sep !in x[1..] by {
        forall i | 0 <= i < |x| - 1 ensures x[1..][i] != sep { assert x[1..][i] == x[i + 1]; }
      }
      SplitAfterPart(x[1..], y, sep);
      assert [x[0]] + x[1..] == x;
    }
  }

  /** Joining separator-free parts and splitting again gives back the parts. */
  lemma {:induction false} SplitJoin(parts: seq<string>, sep: char)
    requires |parts| >= 1
    requires forall i :: 0 <= i < |parts| ==> sep !in parts[i]
    ensures Split(Join(parts, sep), sep) == parts
  {
    if |parts| == 1 {
      SplitWithoutSeparator(parts[0], sep);
    } else {
      SplitJoin(parts[1..], sep);
      SplitAfterPart(parts[0], Join(parts[1..], sep), sep);
      assert [parts[0]] + parts[1..] == parts;
    }
  }

  /** `pat` occurs in `s` starting at position `i`. */
  predicate OccursAt(s: string, pat: string, i: int) {
    0 <= i && i + |pat| <= |s| && forall k :: 0 <= k < |pat| ==> s[i + k] == pat[k]
  }

  /** `s.includes(pat)`. */
  predicate Contains(s: string, pat: string) {
    exists i :: 0 <= i <= |s| && OccursAt(s, pat, i)
  }

  /** `s.indexOf(pat, from)`: the first occurrence of `pat` at or after `from`. */
  function IndexOf(s: string, pat: string, from: nat): (r: Option<nat>)
    decreases |s| - from
    ensures r.Some? ==> from <= r.value && OccursAt(s, pat, r.value)
    ensures forall i :: from <= i && (r.None? || i < r.value) ==> !OccursAt(s, pat, i)
  {
    if from + |pat| > |s| then None
    else if OccursAt(s, pat, from) then Some(from)
    else IndexOf(s, pat, from + 1)
  }

  /** `indexOf` finds the first occurrence at or after `from`. */
  lemma IndexOfFirst(s: string, pat: string, from: nat, p: nat)
    requires from <= p && OccursAt(s, pat, p)
    requires forall i :: from <= i < p ==> !OccursAt(s, pat, i)
    ensures IndexOf(s, pat, from) == Some(p)
  {
  }

  /** An occurrence inside a slice is an occurrence in the whole string, shifted. */
  lemma OccursInSlice(s: string, lo: nat, hi: nat, pat: string, i: int)
    requires lo <= hi <= |s|
    requires OccursAt(s[lo..hi], pat, i)
    ensures OccursAt(s, pat, lo + i)
  {
    var t := s[lo..hi];
    forall k | 0 <= k < |pat| ensures s[lo + i + k] == pat[k] {
      assert t[i..i + |pat|][k] == t[i + k] == s[lo + i + k];
    }
    assert s[lo + i..lo + i + |pat|] == pat;
  }

  /**
   * An occurrence in `x + [c] + y` of a pattern that does not contain `c`
   * lies wholly inside `x` or wholly inside `y`.
   */
  lemma OccursAround(x: string, c: char, y: string, pat: string, i: int)
    requires c !in pat
    requires OccursAt(x + [c] + y, pat, i)
    ensures OccursAt(x, pat, i) || (i > |x| && OccursAt(y, pat, i - |x| - 1))
  {
    var s := x + [c] + y;
    assert s[|x|] == c;
    assert forall j :: i <= j < i + |pat| ==> s[j] == pat[j - i];
    if i + |pat| <= |x| {
      forall k | 0 <= k < |pat| ensures x[i + k] == pat[k] { assert s[i + k] == x[i + k]; }
    } else {
      forall k | 0 <= k < |pat| ensures y[i - |x| - 1 + k] == pat[k] { assert s[i + k] == y[i - |x| - 1 + k]; }
    }
  }

  /** Past a pattern-free `x` and a separator foreign to the pattern, every occurrence lies in `y`. */
  lemma OccurrencesBeyond(x: string, c: char, y: string, pat: string)
    requires c !in pat && !Contains(x, pat)
    ensures forall i :: OccursAt(x + [c] + y, pat, i) ==> i > |x| && OccursAt(y, pat, i - |x| - 1)
  {
    forall i | OccursAt(x + [c] + y, pat, i) ensures i > |x| && OccursAt(y, pat, i - |x| - 1) {
      OccursAround(x, c, y, pat, i);
    }
  }

  /** Joining two pattern-free strings with a character foreign to the pattern creates no occurrence. */
  lemma NotContainsAround(x: string, c: char, y: string, pat: string)
    requires c !in pat && !Contains(x, pat) && !Contains(y, pat)
    ensures !Contains(x + [c] + y, pat)
  {
    OccurrencesBeyond(x, c, y, pat);
  }

  /** An occurrence in `y` is an occurrence in `x + y`, shifted by `|x|`. */
  lemma OccursAfter(x: string, y: string, pat: string, i: int)
    requires OccursAt(y, pat, i)
    ensures OccursAt(x + y, pat, |x| + i)
  {
    forall k | 0 <= k < |pat| ensures (x + y)[|x| + i + k] == pat[k] { }
  }

  /** Joining pattern-free parts with a character foreign to the pattern creates no occurrence. */
  lemma {:induction false} JoinNotContains(parts: seq<string>, sep: char, pat: string)
    requires sep !in pat && |pat| > 0
    requires forall i :: 0 <= i < |parts| ==> !Contains(parts[i], pat)
    ensures !Contains(Join(parts, sep), pat)
  {
    if |parts| > 1 {
      JoinNotContains(parts[1..], sep, pat);
      NotContainsAround(parts[0], sep, Join(parts[1..], sep), pat);
    }
  }

  /** Joining separator-free parts gives no separator. */
  lemma {:induction false} JoinWithoutSeparator(parts: seq<string>, sep: char, c: char)
    requires c != sep
    requires forall i :: 0 <= i < |parts| ==> c !in parts[i]
    ensures c !in Join(parts, sep)
  {
    if |parts| > 1 {
      JoinWithoutSeparator(parts[1..], sep, c);
    }
  }

  /** The joined string begins with the first part and ends with the last. */
  lemma {:induction false} JoinEnds(parts: seq<string>, sep: char)
    requires |parts| >= 1
    ensures |Join(parts, sep)| >= |parts[0]| && |Join(parts, sep)| >= |parts[|parts| - 1]|
    ensures Join(parts, sep)[..|parts[0]|] == parts[0]
    ensures Join(parts, sep)[|Join(parts, sep)| - |parts[|parts| - 1]|..] == parts[|parts| - 1]
  {
    if |parts| > 1 {
      JoinEnds(parts[1..], sep);
      var rest := Join(parts[1..], sep);
      var last := parts[|parts| - 1];
      assert parts[1..][|parts| - 2] == last;
      assert (parts[0] + [sep] + rest)[|parts[0]| + 1 + |rest| - |last|..] == rest[|rest| - |last|..];
    }
  }

  /** Whitespace up to `k` and none at `k`: the leading whitespace is `k` long. */
  lemma LeadingWhitespaceIs(s: string, k: nat)
    requires k < |s| && !IsWhitespace(s[k])
    requires forall i :: 0 <= i < k ==> IsWhitespace(s[i])
    ensures LeadingWhitespace(s) == k
  {
    var r := LeadingWhitespace(s);
    assert !(r < k) && !(k < r);
  }

  /** Whitespace in the last `k` characters and none before them: the trailing whitespace is `k` long. */
  lemma TrailingWhitespaceIs(s: string, k: nat)
    requires k < |s| && !IsWhitespace(s[|s| - k - 1])
    requires forall i :: |s| - k <= i < |s| ==> IsWhitespace(s[i])
    ensures TrailingWhitespace(s) == k
  {
    var r := TrailingWhitespace(s);
    assert !(r < k) && !(k < r);
  }

  /** `trim` removes exactly the whitespace around a trimmed, non-empty string. */
  lemma TrimPaddedNonEmpty(w1: string, t: string, w2: string)
    requires forall i :: 0 <= i < |w1| ==> IsWhitespace(w1[i])
    requires forall i :: 0 <= i < |w2| ==> IsWhitespace(w2[i])
    requires t != [] && IsTrimmed(t)
    ensures Trim(w1 + t + w2) == t
  {
    var s := w1 + t + w2;
    assert s[|w1|] == t[0];
    assert forall j :: 0 <= j < |w1| ==> s[j] == w1[j];
    LeadingWhitespaceIs(s, |w1|);
    var u := s[|w1|..];
    assert u == t + w2;
    assert u[|t| - 1] == t[|t| - 1];
    assert forall j :: |t| <= j < |u| ==> u[j] == w2[j - |t|];
    TrailingWhitespaceIs(u, |w2|);
    assert s[|w1|..|w1| + |t|] == t;
  }

  /** `trim` removes exactly the whitespace around a trimmed string. */
  lemma TrimPadded(w1: string, t: string, w2: string)
    requires forall i :: 0 <= i < |w1| ==> IsWhitespace(w1[i])
    requires forall i :: 0 <= i < |w2| ==> IsWhitespace(w2[i])
    requires IsTrimmed(t)
    ensures Trim(w1 + t + w2) == t
  {
    var s := w1 + t + w2;
    if t == [] {
      forall i | 0 <= i < |s| ensures IsWhitespace(s[i]) {
        if i < |w1| { assert s[i] == w1[i]; } else { assert s[i] == w2[i - |w1|]; }
      }
    } else {
      TrimPaddedNonEmpty(w1, t, w2);
    }
  }

  /** A trimmed string is its own `trim`. */
  lemma TrimOfTrimmed(t: string)
    requires IsTrimmed(t)
    ensures Trim(t) == t
  {
    TrimPadded([], t, []);
    assert [] + t + [] == t;
  }

  /** `s.length`: UTF-16 code units, two for a character outside the Basic Multilingual Plane. */
  function Utf16Length(s: string): (n: nat)
    ensures |s| <= n <= 2 * |s|
  {
    if s == [] then 0 else (if s[0] as int > 0xFFFF then 2 else 1) + Utf16Length(s[1..])
  }
}
