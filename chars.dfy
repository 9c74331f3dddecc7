/** Character classes and case mapping as the JavaScript regular expressions of
    App.js see them (non-Unicode mode): `\w` is ASCII, `\s` is the fixed
    WhiteSpace/LineTerminator set, and the `i` flag folds ASCII letters only. */
module Chars {

  predicate IsUpper(c: char) { 'A' <= c <= 'Z' }
  predicate IsLower(c: char) { 'a' <= c <= 'z' }
  predicate IsLetter(c: char) { IsUpper(c) || IsLower(c) }
  predicate IsDigit(c: char) { '0' <= c <= '9' }

  /** `\w` */
  predicate IsWordChar(c: char) { IsLetter(c) || IsDigit(c) || c == '_' }

  /** `\s`: the ECMAScript WhiteSpace and LineTerminator code points. */
  predicate IsSpace(c: char)
  {
    c == ' ' || ('\t' <= c <= '\r') || c == '\U{00A0}' || c == '\U{1680}'
    || ('\U{2000}' <= c <= '\U{200A}') || c == '\U{2028}' || c == '\U{2029}'
    || c == '\U{202F}' || c == '\U{205F}' || c == '\U{3000}' || c == '\U{FEFF}'
  }

  /** The characters that `.` in a pattern does not match. */
  predicate IsLineTerminator(c: char)
  {
    c == '\n' || c == '\r' || c == '\U{2028}' || c == '\U{2029}'
  }

  /** `[.!?]` */
  predicate IsSentenceEnd(c: char) { c == '.' || c == '!' || c == '?' }

  function ToLower(c: char): (r: char)
    ensures IsLetter(c) <==> IsLetter(r)
    ensures !IsUpper(r)
    ensures !IsLetter(c) ==> r == c
    ensures IsLower(c) ==> r == c
  {
    if IsUpper(c) then (c as int + 32) as char else c
  }

  function ToUpper(c: char): (r: char)
    ensures IsLetter(c) <==> IsLetter(r)
    ensures !IsLower(r)
    ensures !IsLetter(c) ==> r == c
    ensures ToLower(r) == ToLower(c)
  {
    if IsLower(c) then (c as int - 32) as char else c
  }

  /** `String.prototype.toLowerCase`, restricted to ASCII. */
  function LowerString(s: string): (r: string)
    ensures |r| == |s|
    ensures forall k :: 0 <= k < |s| ==> r[k] == ToLower(s[k])
  {
    seq(|s|, k requires 0 <= k < |s| => ToLower(s[k]))
  }

  /** `String.prototype.toUpperCase`, restricted to ASCII. */
  function UpperString(s: string): (r: string)
    ensures |r| == |s|
    ensures forall k :: 0 <= k < |s| ==> r[k] == ToUpper(s[k])
  {
    seq(|s|, k requires 0 <= k < |s| => ToUpper(s[k]))
  }

  /** `t` is `s` with some letters upper-cased and nothing else changed. */
  ghost predicate UpcaseOf(s: string, t: string)
  {
    |t| == |s| && forall k :: 0 <= k < |s| ==> t[k] == s[k] || t[k] == ToUpper(s[k])
  }

  /** `t` differs from `s` at most in the case of its letters. */
  ghost predicate SameUpToCase(s: string, t: string)
  {
    |t| == |s| && forall k :: 0 <= k < |s| ==> ToLower(t[k]) == ToLower(s[k])
  }

  /** Case-insensitive (flag `i`) match of the literal `lit` at position `i` of `s`. */
  predicate CiLitAt(s: string, i: nat, lit: string)
  {
    i + |lit| <= |s| && forall k :: 0 <= k < |lit| ==> ToLower(s[i + k]) == ToLower(lit[k])
  }

  /** Case-sensitive match of the literal `lit` at position `i` of `s`. */
  predicate LitAt(s: string, i: nat, lit: string)
  {
    i + |lit| <= |s| && s[i..i + |lit|] == lit
  }

  /** Position `j` holds a word character (false outside the string). */
  predicate WordAt(s: string, j: int)
  {
    0 <= j < |s| && IsWordChar(s[j])
  }

  /** `\b` at position `j`. */
  predicate IsBoundary(s: string, j: int)
  {
    WordAt(s, j - 1) != WordAt(s, j)
  }

  /** End of the maximal `\s*` run starting at `j` (greedy). */
  function SpaceRunEnd(s: string, j: nat): (e: nat)
    requires j <= |s|
    ensures j <= e <= |s|
    ensures forall x :: j <= x < e ==> IsSpace(s[x])
    ensures e == |s| || !IsSpace(s[e])
    decreases |s| - j
  {
    if j < |s| && IsSpace(s[j]) then SpaceRunEnd(s, j + 1) else j
  }

  /** End of the maximal `\d*` run starting at `j` (greedy). */
  function DigitRunEnd(s: string, j: nat): (e: nat)
    requires j <= |s|
    ensures j <= e <= |s|
    ensures forall x :: j <= x < e ==> IsDigit(s[x])
    ensures e == |s| || !IsDigit(s[e])
    decreases |s| - j
  {
    if j < |s| && IsDigit(s[j]) then DigitRunEnd(s, j + 1) else j
  }

  /** Positions of `b` seen through `p + b`. */
  lemma ShiftConcat(p: string, b: string, k: nat, v: string)
    ensures CiLitAt(p + b, |p| + k, v) <==> CiLitAt(b, k, v)
    ensures WordAt(p + b, |p| + k) == WordAt(b, k)
  {
    if CiLitAt(b, k, v) {
      forall x | 0 <= x < |v| ensures ToLower((p + b)[|p| + k + x]) == ToLower(v[x]) {
        assert (p + b)[|p| + k + x] == b[k + x];
      }
    }
    if CiLitAt(p + b, |p| + k, v) {
      forall x | 0 <= x < |v| ensures ToLower(b[k + x]) == ToLower(v[x]) {
        assert (p + b)[|p| + k + x] == b[k + x];
      }
    }
  }

  lemma UpcaseIsSameUpToCase(s: string, t: string)
    requires UpcaseOf(s, t)
    ensures SameUpToCase(s, t)
  {
  }

  lemma UpperIsUpcase(s: string)
    ensures UpcaseOf(s, UpperString(s))
  {
  }

  lemma UpcaseConcat(a: string, b: string, c: string, d: string)
    requires UpcaseOf(a, c) && UpcaseOf(b, d)
    ensures UpcaseOf(a + b, c + d)
  {
    forall k | 0 <= k < |a + b| ensures (c + d)[k] == (a + b)[k] || (c + d)[k] == ToUpper((a + b)[k]) {
      if k < |a| {
        assert (c + d)[k] == c[k] && (a + b)[k] == a[k];
      } else {
        assert (c + d)[k] == d[k - |a|] && (a + b)[k] == b[k - |a|];
      }
    }
  }

  lemma LowerIsSameUpToCase(s: string)
    ensures SameUpToCase(s, LowerString(s))
  {
  }
}
