/**
 * The JavaScript string operations the server relies on: `String.prototype.trim`,
 * the UTF-16 `length` and substring occurrence.
 *
 * Dafny's `char` is a Unicode scalar value; JavaScript strings count UTF-16 code
 * units. Every character `trim` removes lies in the Basic Multilingual Plane, so
 * trimming is the same on either view; `JsLength` gives the UTF-16 count where the
 * source compares a `length`.
 */
module Text {

  /** The characters `trim` removes and the regular-expression class `\s` matches:
      ECMAScript's WhiteSpace and LineTerminator code points. */
  predicate IsWhiteSpace(c: char) {
    || c == '\t' || c == '\n' || c == '\U{000B}' || c == '\U{000C}' || c == '\r'
    || c == ' ' || c == '\U{00A0}' || c == '\U{1680}'
    || ('\U{2000}' <= c <= '\U{200A}')
    || c == '\U{2028}' || c == '\U{2029}' || c == '\U{202F}' || c == '\U{205F}'
    || c == '\U{3000}' || c == '\U{FEFF}'
  }

  /** No white space at either end: what `trim` leaves behind. */
  predicate IsTrimmed(s: string) {
    s == [] || (!IsWhiteSpace(s[0]) && !IsWhiteSpace(s[|s| - 1]))
  }

  /** `s.trimStart()`: `s` without its leading white space. */
  function TrimStart(s: string): (r: string)
    ensures |r| <= |s|
    ensures r == [] || !IsWhiteSpace(r[0])
  {
    if |s| > 0 && IsWhiteSpace(s[0]) then TrimStart(s[1..]) else s
  }

  /** `s.trimEnd()`: `s` without its trailing white space. */
  function TrimEnd(s: string): (r: string)
    ensures |r| <= |s|
    ensures r == [] || (r[0] == s[0] && !IsWhiteSpace(r[|r| - 1]))
  {
    if |s| > 0 && IsWhiteSpace(s[|s| - 1]) then TrimEnd(s[..|s| - 1]) else s
  }

  /** `s.trim()`: `s` without white space at either end. */
  function Trim(s: string): (r: string)
    ensures IsTrimmed(r)
    ensures |r| <= |s|
  {
    TrimEnd(TrimStart(s))
  }

  /** `trimStart` cuts only leading white space: what it returns is a suffix
      of `s`, and everything before that suffix is white space. */
  lemma {:induction false} TrimStartSlice(s: string)
    ensures TrimStart(s) == s[|s| - |TrimStart(s)|..]
    ensures forall i :: 0 <= i < |s| - |TrimStart(s)| ==> IsWhiteSpace(s[i])
  {
    if |s| > 0 && IsWhiteSpace(s[0]) {
      TrimStartSlice(s[1..]);
      assert s[1..][|s| - 1 - |TrimStart(s)|..] == s[|s| - |TrimStart(s)|..];
      forall i | 0 < i < |s| - |TrimStart(s)|
        ensures IsWhiteSpace(s[i])
      {
        assert s[i] == s[1..][i - 1];
      }
    }
  }

  /** `trimEnd` cuts only trailing white space: what it returns is a prefix
      of `s`, and everything after that prefix is white space. */
  lemma {:induction false} TrimEndSlice(s: string)
    ensures TrimEnd(s) == s[..|TrimEnd(s)|]
    ensures forall i :: |TrimEnd(s)| <= i < |s| ==> IsWhiteSpace(s[i])
  {
    if |s| > 0 && IsWhiteSpace(s[|s| - 1]) {
      var p := s[..|s| - 1];
      TrimEndSlice(p);
      assert p[..|TrimEnd(s)|] == s[..|TrimEnd(s)|];
      forall i | |TrimEnd(s)| <= i < |s| - 1
        ensures IsWhiteSpace(s[i])
      {
        assert s[i] == p[i];
      }
    }
  }

  /** `trim` only cuts white space: its result is the slice of `s` that starts
      after the leading white space, and everything on either side of it is
      white space. */
  lemma TrimIsSlice(s: string)
    ensures var lead := |s| - |TrimStart(s)|;
      && lead + |Trim(s)| <= |s|
      && Trim(s) == s[lead..lead + |Trim(s)|]
      && (forall i :: 0 <= i < lead ==> IsWhiteSpace(s[i]))
      && (forall i :: lead + |Trim(s)| <= i < |s| ==> IsWhiteSpace(s[i]))
  {
    var t := TrimStart(s);
    assert Trim(s) == TrimEnd(t);
    TrimStartSlice(s);
    TrimEndSlice(t);
    SliceOfSuffix(s, |s| - |t|, |TrimEnd(t)|, IsWhiteSpace);
  }

  /** A prefix of a suffix of `s` is a slice of `s`, and what follows the prefix
      in the suffix is what follows the slice in `s`. */
  lemma SliceOfSuffix<T>(s: seq<T>, lead: nat, n: nat, p: T -> bool)
    requires lead <= |s| && n <= |s| - lead
    requires forall i :: n <= i < |s| - lead ==> p(s[lead..][i])
    ensures s[lead..][..n] == s[lead..lead + n]
    ensures forall i :: lead + n <= i < |s| ==> p(s[i])
  {
    forall i | lead + n <= i < |s|
      ensures p(s[i])
    {
      assert s[i] == s[lead..][i - lead];
    }
  }

  /** A string with no white space at either end is its own trim. */
  lemma TrimOfTrimmed(s: string)
    requires IsTrimmed(s)
    ensures Trim(s) == s
  {
    assert TrimStart(s) == s;
    assert TrimEnd(s) == s;
  }

  /** `trim` is idempotent. */
  lemma TrimIdempotent(s: string)
    ensures Trim(Trim(s)) == Trim(s)
  {
    TrimOfTrimmed(Trim(s));
  }

  /** Trailing white space does not survive `trimEnd`. */
  lemma TrimEndDropsSpace(s: string, c: char)
    requires IsWhiteSpace(c)
    ensures TrimEnd(s + [c]) == TrimEnd(s)
  {
    assert (s + [c])[..|s + [c]| - 1] == s;
  }

  /** White space appended to a trimmed, non-empty string is trimmed away again. */
  lemma TrimDropsAppendedSpace(s: string, c: char)
    requires s != [] && IsTrimmed(s) && IsWhiteSpace(c)
    ensures Trim(s + [c]) == s
  {
    TrimStartConcat(s, [c]);
    assert TrimStart(s) == s;
    TrimEndDropsSpace(s, c);
    assert TrimEnd(s) == s;
  }

  /** `trimStart` on a concatenation: once the left part has a non-space
      character, the right part is kept whole. */
  lemma {:induction false} TrimStartConcat(x: string, y: string)
    ensures TrimStart(x + y) == if TrimStart(x) == [] then TrimStart(y) else TrimStart(x) + y
  {
    if |x| > 0 && IsWhiteSpace(x[0]) {
      assert (x + y)[1..] == x[1..] + y;
      TrimStartConcat(x[1..], y);
    } else if |x| == 0 {
      assert x + y == y;
    }
  }

  /** The number of UTF-16 code units JavaScript's `length` reports for `s`:
      a character outside the Basic Multilingual Plane takes two. */
  function JsLength(s: string): (n: nat)
    ensures |s| <= n <= 2 * |s|
  {
    if s == [] then 0
    else (if s[0] > '\U{FFFF}' then 2 else 1) + JsLength(s[1..])
  }

  /** `needle` occurs in `hay` starting at index `at`. */
  predicate OccursAt(needle: string, hay: string, at: nat) {
    at + |needle| <= |hay| && hay[at..at + |needle|] == needle
  }

  /** A string occurs where it is spliced in. */
  lemma OccursSpliced(before: string, needle: string, after: string)
    ensures OccursAt(needle, before + needle + after, |before|)
  {
    assert (before + needle + after)[|before|..|before| + |needle|] == needle;
  }

  /** An occurrence moves right by the length of what is put in front. */
  lemma OccursShifted(needle: string, before: string, hay: string, at: nat)
    requires OccursAt(needle, hay, at)
    ensures OccursAt(needle, before + hay, |before| + at)
  {
    assert (before + hay)[|before| + at..|before| + at + |needle|] == hay[at..at + |needle|];
  }

  /** An occurrence in a slice is an occurrence in the whole. */
  lemma OccursInSlice(needle: string, hay: string, from: nat, to: nat, at: nat)
    requires from <= to <= |hay| && OccursAt(needle, hay[from..to], at)
    ensures OccursAt(needle, hay, from + at)
  {
    var slice := hay[from..to];
    forall i | 0 <= i < |needle|
      ensures hay[from + at + i] == needle[i]
    {
      assert slice[at..at + |needle|][i] == slice[at + i];
    }
    assert hay[from + at..from + at + |needle|] == needle;
  }

  /** Two adjacent occurrences make one of the concatenation. */
  lemma OccursAdjacent(a: string, b: string, hay: string, at: nat)
    requires OccursAt(a, hay, at) && OccursAt(b, hay, at + |a|)
    ensures OccursAt(a + b, hay, at)
  {
    assert hay[at..at + |a + b|] == hay[at..at + |a|] + hay[at + |a|..at + |a| + |b|];
  }

  /** A string occurs at the start of anything it begins. */
  lemma OccursPrefix(needle: string, rest: string)
    ensures OccursAt(needle, needle + rest, 0)
  {
    assert (needle + rest)[0..|needle|] == needle;
  }

  /** `hay.includes(needle)`. */
  ghost predicate Contains(hay: string, needle: string) {
    exists at: nat :: OccursAt(needle, hay, at)
  }
}
