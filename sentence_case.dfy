/** The pass of App.js:54 upper-cases exactly the word characters that open a
    sentence: the first word character after leading white space, and each word
    character that follows `.`, `!` or `?` and white space. */
module SentenceCaseProofs {
  import opened Chars
  import opened Scan
  import opened Capitalize

  /** Start of the maximal white-space run that ends at `x`. */
  function SpaceRunBack(s: string, x: nat): (j: nat)
    requires x <= |s|
    ensures j <= x
    ensures forall y :: j <= y < x ==> IsSpace(s[y])
    ensures j == 0 || !IsSpace(s[j - 1])
    decreases x
  {
    if x > 0 && IsSpace(s[x - 1]) then SpaceRunBack(s, x - 1) else x
  }

  /** Position `x` holds a word character with only white space between it and
      the start of the text or a `.`, `!` or `?`. */
  predicate SentenceInitial(s: string, x: nat)
    requires x < |s|
  {
    IsWordChar(s[x]) && var j := SpaceRunBack(s, x); j == 0 || IsSentenceEnd(s[j - 1])
  }

  /** Reference definition: every sentence-initial word character upper-cased, nothing else changed. */
  function Capitalized(s: string): (r: string)
    ensures |r| == |s|
  {
    seq(|s|, x requires 0 <= x < |s| => if SentenceInitial(s, x) then ToUpper(s[x]) else s[x])
  }

  /** The scan, having reached `i`, has not yet passed the opening of the sentence that `x` starts. */
  predicate OpensAfter(s: string, i: nat, x: nat)
    requires i <= x < |s|
  {
    SentenceInitial(s, x) ==> i == 0 || SpaceRunBack(s, x) > i
  }

  lemma {:induction false} SpaceRunBackIs(s: string, a: nat, x: nat)
    requires a <= x <= |s|
    requires forall y :: a <= y < x ==> IsSpace(s[y])
    requires a == 0 || !IsSpace(s[a - 1])
    ensures SpaceRunBack(s, x) == a
    decreases x
  {
    if a < x {
      SpaceRunBackIs(s, a, x - 1);
    }
  }

  lemma {:induction false} SpaceRunEndIs(s: string, j: nat, x: nat)
    requires j <= x <= |s|
    requires forall y :: j <= y < x ==> IsSpace(s[y])
    requires x == |s| || !IsSpace(s[x])
    ensures SpaceRunEnd(s, j) == x
    decreases x - j
  {
    if j < x {
      SpaceRunEndIs(s, j + 1, x);
    }
  }

  /** A sentence-initial word character ends the white-space run that follows its opening. */
  lemma InitialEndsRun(s: string, x: nat)
    requires x < |s| && SentenceInitial(s, x)
    ensures var j := SpaceRunBack(s, x); SpaceRunEnd(s, j) == x && WordAfterSpaces(s, j)
  {
    SpaceRunEndIs(s, SpaceRunBack(s, x), x);
  }

  /** Every sentence-initial position from `i` on opens after `i`. */
  predicate Synced(s: string, i: nat)
    requires i <= |s|
  {
    forall x :: i <= x < |s| ==> OpensAfter(s, i, x)
  }

  lemma UnfoldSentenceStart(s: string, i: nat)
    ensures SentenceStart(s, i) == SentenceStartHit(s, i)
  {
  }

  /** A match is an optional `.`, `!` or `?` at `i`, the white-space run from `a`, and the word character at `e - 1`. */
  lemma HitShape(s: string, i: nat) returns (a: nat, e: nat)
    requires Fires(SentenceStart, s, i)
    ensures e == i + SentenceStart(s, i).value.len && i < e <= |s|
    ensures SentenceStart(s, i).value.text == UpperString(s[i..e])
    ensures (a == i + 1 && IsSentenceEnd(s[i])) || (a == i == 0)
    ensures a <= e - 1 && SpaceRunEnd(s, a) == e - 1 && IsWordChar(s[e - 1])
  {
    UnfoldSentenceStart(s, i);
    var h := SentenceStartHit(s, i).value;
    e := i + h.len;
    a := if IsSentenceEnd(s[i]) then i + 1 else i;
  }

  /** The replacement of a match is the reference on the matched stretch. */
  lemma HitText(s: string, i: nat, a: nat, e: nat)
    requires i < e <= |s|
    requires (a == i + 1 && IsSentenceEnd(s[i])) || (a == i == 0)
    requires a <= e - 1 && SpaceRunEnd(s, a) == e - 1 && IsWordChar(s[e - 1])
    ensures UpperString(s[i..e]) == Capitalized(s)[i..e]
  {
    SpaceRunBackIs(s, a, e - 1);
    forall x | i <= x < e ensures ToUpper(s[x]) == Capitalized(s)[x] {
      MatchedChar(s, i, a, e, x);
    }
    UpperSlice(s, Capitalized(s), i, e);
  }

  lemma UpperSlice(s: string, c: string, i: nat, e: nat)
    requires i <= e <= |s| == |c|
    requires forall x :: i <= x < e ==> ToUpper(s[x]) == c[x]
    ensures UpperString(s[i..e]) == c[i..e]
  {
    var u := UpperString(s[i..e]);
    forall y | 0 <= y < e - i ensures u[y] == c[i..e][y] {
      assert s[i..e][y] == s[i + y];
    }
  }

  lemma MatchedChar(s: string, i: nat, a: nat, e: nat, x: nat)
    requires i <= x < e <= |s|
    requires (a == i + 1 && IsSentenceEnd(s[i])) || (a == i == 0)
    requires a <= e - 1 && SpaceRunEnd(s, a) == e - 1 && IsWordChar(s[e - 1])
    requires SpaceRunBack(s, e - 1) == a
    ensures ToUpper(s[x]) == Capitalized(s)[x]
  {
    if x < e - 1 {
      assert x == i || IsSpace(s[x]);
    } else {
      assert SentenceInitial(s, x);
    }
  }

  /** After a match the scan is in step again: the match ends with a word character. */
  lemma HitSynced(s: string, e: nat)
    requires 0 < e <= |s| && IsWordChar(s[e - 1])
    ensures Synced(s, e)
  {
    forall x | e <= x < |s| ensures OpensAfter(s, e, x) {
      if SentenceInitial(s, x) {
        assert SpaceRunBack(s, x) >= e;
        assert SpaceRunBack(s, x) != e by {
          assert !IsSentenceEnd(s[e - 1]);
        }
      }
    }
  }

  /** Where the pattern does not match, the scan copies a character that the
      reference leaves alone, and it has not passed a sentence opening. */
  lemma CopyCapitalized(s: string, i: nat)
    requires i < |s| && !Fires(SentenceStart, s, i) && Synced(s, i)
    ensures Capitalized(s)[i] == s[i]
    ensures Synced(s, i + 1)
  {
    UnfoldSentenceStart(s, i);
    assert SentenceStartHit(s, i).None?;
    if SentenceInitial(s, i) {
      assert OpensAfter(s, i, i);
      InitialEndsRun(s, i);
      assert false;
    }
    var j := i + 1;
    forall x | j <= x < |s| ensures OpensAfter(s, j, x) {
      if SentenceInitial(s, x) {
        assert OpensAfter(s, i, x);
        InitialEndsRun(s, x);
      }
    }
  }

  lemma {:induction false} CapitalizedFrom(s: string, i: nat)
    requires i <= |s| && Synced(s, i)
    ensures ReplaceFrom(SentenceStart, s, i) == Capitalized(s)[i..]
    decreases |s| - i
  {
    if i < |s| {
      if Fires(SentenceStart, s, i) {
        var a, e := HitShape(s, i);
        HitText(s, i, a, e);
        HitSynced(s, e);
        CapitalizedFrom(s, e);
        ScanHit(SentenceStart, s, i, e, Capitalized(s));
      } else {
        CopyCapitalized(s, i);
        CapitalizedFrom(s, i + 1);
        ScanCopy(SentenceStart, s, i, Capitalized(s));
      }
    }
  }

  /** The reference upper-cases the first word character after leading white
      space and leaves the white space before it alone. */
  lemma CapitalizedOpening(p: string)
    requires WordAfterSpaces(p, 0)
    ensures var x := SpaceRunEnd(p, 0);
      Capitalized(p)[x] == ToUpper(p[x]) && Capitalized(p)[..x] == p[..x]
  {
    var x := SpaceRunEnd(p, 0);
    SpaceRunBackIs(p, 0, x);
    assert SentenceInitial(p, x);
    forall y | 0 <= y < x ensures Capitalized(p)[y] == p[y] {
      assert IsSpace(p[y]);
    }
  }

  /** The reference upper-cases the first word character after a `.`, `!` or `?`
      and white space, and leaves that white space alone. */
  lemma CapitalizedAfterEnd(p: string, i: nat)
    requires i < |p| && IsSentenceEnd(p[i]) && WordAfterSpaces(p, i + 1)
    ensures var x := SpaceRunEnd(p, i + 1);
      Capitalized(p)[x] == ToUpper(p[x]) && Capitalized(p)[i..x] == p[i..x]
  {
    var x := SpaceRunEnd(p, i + 1);
    SpaceRunBackIs(p, i + 1, x);
    assert SentenceInitial(p, x);
    CapitalizedKeeps(p, i, x);
  }

  /** The reference leaves a stretch without word characters as it is. */
  lemma CapitalizedKeeps(p: string, a: nat, b: nat)
    requires a <= b <= |p|
    requires forall y :: a <= y < b ==> !IsWordChar(p[y])
    ensures Capitalized(p)[a..b] == p[a..b]
  {
    forall y | 0 <= y < b - a ensures Capitalized(p)[a..b][y] == p[a..b][y] {
      assert !SentenceInitial(p, a + y);
    }
  }

  /** App.js:54: the callback upper-cases exactly the sentence-initial word characters. */
  lemma CapitalizeSentenceIsCapitalized(s: string)
    ensures CapitalizeSentence(s) == Capitalized(s)
  {
    CapitalizedFrom(s, 0);
  }
}
