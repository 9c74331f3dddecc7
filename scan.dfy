/** The semantics of `String.prototype.replace` with a global pattern, for one
    hand-written matcher per pattern: the string is scanned left to right, the
    leftmost match wins, matched text is replaced and scanning resumes after it,
    so matches never overlap. A matcher sees the whole string, so it can look
    behind the current position (for `\b` and for `^`). */
module Scan {
  import opened Chars

  datatype Option<T> = None | Some(value: T)

  /** A match at some position: how many characters it consumes and what replaces them. */
  datatype Hit = Hit(len: nat, text: string)

  /** The pattern tried at position `i` of `s`. */
  type Matcher = (string, nat) -> Option<Hit>

  /** The matcher matches a non-empty stretch at position `i`. */
  predicate Fires(f: Matcher, s: string, i: nat)
  {
    i < |s| && f(s, i).Some? && 0 < f(s, i).value.len <= |s| - i
  }

  /** Replace every match from position `i` on. */
  function ReplaceFrom(f: Matcher, s: string, i: nat): string
    decreases |s| - i
  {
    if i >= |s| then []
    else if Fires(f, s, i) then f(s, i).value.text + ReplaceFrom(f, s, i + f(s, i).value.len)
    else [s[i]] + ReplaceFrom(f, s, i + 1)
  }

  /** `s.replace(/pattern/g, ...)` */
  function ReplaceAll(f: Matcher, s: string): string
  {
    ReplaceFrom(f, s, 0)
  }

  /** One step of the scan. */
  lemma Step(f: Matcher, s: string, i: nat)
    requires i < |s|
    ensures Fires(f, s, i) ==>
      ReplaceFrom(f, s, i) == f(s, i).value.text + ReplaceFrom(f, s, i + f(s, i).value.len)
    ensures !Fires(f, s, i) ==> ReplaceFrom(f, s, i) == [s[i]] + ReplaceFrom(f, s, i + 1)
  {
  }

  lemma SliceCons(s: string, i: nat, j: nat, rest: string)
    requires i < j <= |s|
    ensures [s[i]] + (s[i + 1..j] + rest) == s[i..j] + rest
  {
    assert s[i..j] == [s[i]] + s[i + 1..j];
  }

  /** Stretches where the pattern never matches are copied unchanged. */
  lemma {:induction false} CopiedStretch(f: Matcher, s: string, i: nat, j: nat)
    requires i <= j <= |s|
    requires forall x :: i <= x < j ==> !Fires(f, s, x)
    ensures ReplaceFrom(f, s, i) == s[i..j] + ReplaceFrom(f, s, j)
    decreases j - i
  {
    if i < j {
      assert ReplaceFrom(f, s, i) == [s[i]] + ReplaceFrom(f, s, i + 1) by {
        assert !Fires(f, s, i);
        Step(f, s, i);
      }
      CopiedStretch(f, s, i + 1, j);
      SliceCons(s, i, j, ReplaceFrom(f, s, j));
    }
  }

  /** A pattern that matches nowhere leaves the string as it is. */
  lemma NoMatchIdentity(f: Matcher, s: string)
    requires forall x :: 0 <= x < |s| ==> !Fires(f, s, x)
    ensures ReplaceAll(f, s) == s
  {
    CopiedStretch(f, s, 0, |s|);
    assert ReplaceFrom(f, s, |s|) == [];
  }

  /** A character that is neither in the input nor in any replacement is not in the output. */
  lemma {:induction false} KeepsOut(f: Matcher, s: string, i: nat, c: char)
    requires i <= |s| && c !in s[i..]
    requires forall x :: i <= x < |s| && Fires(f, s, x) ==> c !in f(s, x).value.text
    ensures c !in ReplaceFrom(f, s, i)
    decreases |s| - i
  {
    if i < |s| {
      assert s[i] in s[i..];
      if Fires(f, s, i) {
        var n := f(s, i).value.len;
        assert s[i + n..] == s[i..][n..];
        KeepsOut(f, s, i + n, c);
      } else {
        assert s[i + 1..] == s[i..][1..];
        KeepsOut(f, s, i + 1, c);
      }
    }
  }

  /** A match at `x`, if any, is replaced by text that starts with a non-letter. */
  predicate NonLetterHit(f: Matcher, s: string, x: nat)
  {
    Fires(f, s, x) ==> f(s, x).value.text != [] && !IsLetter(f(s, x).value.text[0])
  }

  /** Replacements that never begin with a letter cannot contribute a leading
      run of letters: such a run of the output is a stretch of the input where
      the pattern does not match. */
  lemma {:induction false} LetterPrefix(f: Matcher, s: string, i: nat, m: nat)
    requires i <= |s|
    requires forall x :: i <= x < |s| ==> NonLetterHit(f, s, x)
    requires m <= |ReplaceFrom(f, s, i)|
    requires forall x :: 0 <= x < m ==> IsLetter(ReplaceFrom(f, s, i)[x])
    ensures i + m <= |s|
    ensures ReplaceFrom(f, s, i) == s[i..i + m] + ReplaceFrom(f, s, i + m)
    ensures forall x :: i <= x < i + m ==> !Fires(f, s, x)
    decreases m
  {
    if m > 0 {
      assert i < |s|;
      var t' := ReplaceFrom(f, s, i + 1);
      assert !Fires(f, s, i) && ReplaceFrom(f, s, i) == [s[i]] + t' by {
        Step(f, s, i);
        assert IsLetter(ReplaceFrom(f, s, i)[0]);
        assert NonLetterHit(f, s, i);
      }
      LettersAfterHead(s[i], t', m);
      LetterPrefix(f, s, i + 1, m - 1);
      assert s[i..i + m] == [s[i]] + s[i + 1..i + m];
    }
  }

  lemma LettersAfterHead(c: char, b: string, m: nat)
    requires 0 < m <= |[c] + b|
    requires forall x :: 0 <= x < m ==> IsLetter(([c] + b)[x])
    ensures forall x :: 0 <= x < m - 1 ==> IsLetter(b[x])
  {
    forall x | 0 <= x < m - 1 ensures IsLetter(b[x]) {
      assert b[x] == ([c] + b)[x + 1];
    }
  }

  /** A pattern whose replacements are never longer than what they replace does not lengthen the string. */
  lemma {:induction false} ScanShrinks(f: Matcher, s: string, i: nat)
    requires i <= |s|
    requires forall j :: i <= j < |s| && Fires(f, s, j) ==> |f(s, j).value.text| <= f(s, j).value.len
    ensures |ReplaceFrom(f, s, i)| <= |s| - i
    decreases |s| - i
  {
    if i < |s| {
      Step(f, s, i);
      if Fires(f, s, i) {
        ScanShrinks(f, s, i + f(s, i).value.len);
      } else {
        ScanShrinks(f, s, i + 1);
      }
    }
  }

  lemma SliceJoin(c: string, i: nat, j: nat)
    requires i <= j <= |c|
    ensures c[i..j] + c[j..] == c[i..]
  {
  }

  /** A match that emits the reference `c` on the stretch it consumes keeps the scan in agreement with `c`. */
  lemma ScanHit(f: Matcher, s: string, i: nat, j: nat, c: string)
    requires Fires(f, s, i) && j == i + f(s, i).value.len
    requires j <= |c| && f(s, i).value.text == c[i..j]
    requires ReplaceFrom(f, s, j) == c[j..]
    ensures ReplaceFrom(f, s, i) == c[i..]
  {
    assert ReplaceFrom(f, s, i) == f(s, i).value.text + ReplaceFrom(f, s, j) by {
      Step(f, s, i);
    }
    SliceJoin(c, i, j);
  }

  /** A copied character that the reference `c` also keeps keeps the scan in agreement with `c`. */
  lemma ScanCopy(f: Matcher, s: string, i: nat, c: string)
    requires i < |s| && !Fires(f, s, i)
    requires i < |c| && c[i] == s[i]
    requires ReplaceFrom(f, s, i + 1) == c[i + 1..]
    ensures ReplaceFrom(f, s, i) == c[i..]
  {
    assert ReplaceFrom(f, s, i) == [s[i]] + ReplaceFrom(f, s, i + 1) by {
      Step(f, s, i);
    }
    assert c[i..] == [c[i]] + c[i + 1..];
  }

  /** A match at `x`, if any, is replaced by its own text upper-cased. */
  predicate UpcasingAt(f: Matcher, s: string, x: nat)
  {
    Fires(f, s, x) ==> f(s, x).value.text == UpperString(s[x..x + f(s, x).value.len])
  }

  /** When every replacement is the upper-cased matched text, only the case of letters changes. */
  lemma {:induction false} UpcaseReplace(f: Matcher, s: string, i: nat)
    requires i <= |s|
    requires forall x :: i <= x < |s| ==> UpcasingAt(f, s, x)
    ensures UpcaseOf(s[i..], ReplaceFrom(f, s, i))
    decreases |s| - i
  {
    if i < |s| {
      var n, head := UpcaseStep(f, s, i);
      UpcaseReplace(f, s, i + n);
      UpcaseConcat(s[i..i + n], s[i + n..], head, ReplaceFrom(f, s, i + n));
      assert s[i..] == s[i..i + n] + s[i + n..];
    }
  }

  /** One step of an upper-casing scan: the piece it emits is an upper-casing of what it consumes. */
  lemma UpcaseStep(f: Matcher, s: string, i: nat) returns (n: nat, head: string)
    requires i < |s|
    requires UpcasingAt(f, s, i)
    ensures 0 < n <= |s| - i
    ensures ReplaceFrom(f, s, i) == head + ReplaceFrom(f, s, i + n)
    ensures UpcaseOf(s[i..i + n], head)
  {
    Step(f, s, i);
    if Fires(f, s, i) {
      n, head := f(s, i).value.len, f(s, i).value.text;
      UpperIsUpcase(s[i..i + n]);
    } else {
      n, head := 1, [s[i]];
    }
  }
}
