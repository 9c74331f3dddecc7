/** The number-word loop (App.js:70-73): after it, no whole-word number name
    from "one" to "ten" is left, in any case. */
module NumberWordProofs {
  import opened Chars
  import opened Scan
  import opened Rules
  import opened Pipeline

  /** No case-insensitive whole-word occurrence of `v` in `t`. */
  ghost predicate NoWholeWord(t: string, v: string)
  {
    forall k: nat :: !WholeWordAt(t, k, v)
  }

  /** Where a number-word pass fires and what it puts there. */
  lemma WordFires(w: string, num: string, s: string, x: nat)
    requires w != []
    ensures Fires(WordMatcher(w, num), s, x) <==> WholeWordAt(s, x, w)
    ensures Fires(WordMatcher(w, num), s, x) ==> WordMatcher(w, num)(s, x).value == Hit(|w|, num)
  {
  }

  /** A leading run of letters in the output of a number-word pass is copied from the input. */
  lemma WordPassLetters(w: string, num: string, s: string, i: nat, m: nat)
    requires WellFormedWord((w, num))
    requires i <= |s|
    requires m <= |ReplaceFrom(WordMatcher(w, num), s, i)|
    requires forall x :: 0 <= x < m ==> IsLetter(ReplaceFrom(WordMatcher(w, num), s, i)[x])
    ensures i + m <= |s|
    ensures ReplaceFrom(WordMatcher(w, num), s, i) == s[i..i + m] + ReplaceFrom(WordMatcher(w, num), s, i + m)
    ensures forall x :: i <= x < i + m ==> !Fires(WordMatcher(w, num), s, x)
  {
    var f := WordMatcher(w, num);
    forall x | i <= x < |s| && Fires(f, s, x) ensures f(s, x).value.text != [] && !IsLetter(f(s, x).value.text[0]) {
      WordFires(w, num, s, x);
    }
    LetterPrefix(f, s, i, m);
  }

  /** A whole-word occurrence of a word `v` at the start of the output of a
      number-word pass from position `i` is copied from the input. */
  lemma WordOriginHere(w: string, num: string, s: string, i: nat, v: string)
    requires WellFormedWord((w, num))
    requires v != [] && AllLetters(v)
    requires i <= |s|
    requires CiLitAt(ReplaceFrom(WordMatcher(w, num), s, i), 0, v)
    requires !WordAt(s, i - 1)
    requires !WordAt(ReplaceFrom(WordMatcher(w, num), s, i), |v|)
    ensures WholeWordAt(s, i, v) && !Fires(WordMatcher(w, num), s, i)
  {
    var f := WordMatcher(w, num);
    var t := ReplaceFrom(f, s, i);
    forall x | 0 <= x < |v| ensures IsLetter(t[x]) {
      assert ToLower(t[x]) == ToLower(v[x]) && IsLetter(v[x]);
    }
    WordPassLetters(w, num, s, i, |v|);
    var e := i + |v|;
    var u := ReplaceFrom(f, s, e);
    assert t == s[i..e] + u;
    ShiftConcat(s[i..e], u, 0, v);
    assert CiLitAt(s, i, v) by {
      forall x | 0 <= x < |v| ensures ToLower(s[i + x]) == ToLower(v[x]) {
        assert s[i + x] == t[x];
      }
    }
    assert !WordAt(s, e) by {
      if e < |s| {
        Step(f, s, e);
        WordFires(w, num, s, e);
        assert |u| > 0 && u[0] == t[|v|];
      }
    }
  }

  /** A whole-word occurrence of a word `v` in the output of a number-word pass
      (at `k` of the part produced from position `i` on) is an occurrence in the
      input that the pass did not replace: the replacement digits are word
      characters, so they can neither be part of `v` nor sit next to it. The
      position `j` of that occurrence is returned. */
  lemma {:induction false} WordOrigin(w: string, num: string, s: string, i: nat, v: string, k: nat) returns (j: nat)
    requires WellFormedWord((w, num))
    requires v != [] && AllLetters(v)
    requires i <= |s|
    requires CiLitAt(ReplaceFrom(WordMatcher(w, num), s, i), k, v)
    requires if k == 0 then !WordAt(s, i - 1) else !WordAt(ReplaceFrom(WordMatcher(w, num), s, i), k - 1)
    requires !WordAt(ReplaceFrom(WordMatcher(w, num), s, i), k + |v|)
    ensures i <= j && WholeWordAt(s, j, v) && !WholeWordAt(s, j, w)
    decreases |s| - i, 1
  {
    var f := WordMatcher(w, num);
    if Fires(f, s, i) {
      j := WordOriginAfterHit(w, num, s, i, v, k);
    } else if k == 0 {
      WordOriginHere(w, num, s, i, v);
      WordFires(w, num, s, i);
      j := i;
    } else {
      j := WordOriginAfterCopy(w, num, s, i, v, k);
    }
  }

  lemma {:induction false} WordOriginAfterHit(w: string, num: string, s: string, i: nat, v: string, k: nat) returns (j: nat)
    requires WellFormedWord((w, num))
    requires v != [] && AllLetters(v)
    requires i <= |s| && Fires(WordMatcher(w, num), s, i)
    requires CiLitAt(ReplaceFrom(WordMatcher(w, num), s, i), k, v)
    requires if k == 0 then !WordAt(s, i - 1) else !WordAt(ReplaceFrom(WordMatcher(w, num), s, i), k - 1)
    requires !WordAt(ReplaceFrom(WordMatcher(w, num), s, i), k + |v|)
    ensures i <= j && WholeWordAt(s, j, v) && !WholeWordAt(s, j, w)
    decreases |s| - i, 0
  {
    var f := WordMatcher(w, num);
    var t := ReplaceFrom(f, s, i);
    var t' := ReplaceFrom(f, s, i + |w|);
    assert i + |w| <= |s| && t == num + t' by {
      WordFires(w, num, s, i);
      Step(f, s, i);
    }
    PastDigits(num, t', k, v);
    ShiftWindow(num, t', k, v);
    j := WordOrigin(w, num, s, i + |w|, v, k - |num|);
  }

  /** A whole-word window of `p + b` that lies past `p` is one of `b`. */
  lemma ShiftWindow(p: string, b: string, k: nat, v: string)
    requires k > |p|
    requires CiLitAt(p + b, k, v) && !WordAt(p + b, k - 1) && !WordAt(p + b, k + |v|)
    ensures CiLitAt(b, k - |p|, v) && !WordAt(b, k - |p| - 1) && !WordAt(b, k - |p| + |v|)
  {
    var k' := k - |p|;
    ShiftConcat(p, b, k', v);
    ShiftConcat(p, b, k' + |v|, v);
    ShiftConcat(p, b, k' - 1, v);
  }

  /** A word of letters that is not preceded by a word character cannot start
      inside or right after a run of digits. */
  lemma PastDigits(num: string, t': string, k: nat, v: string)
    requires num != [] && AllDigits(num) && v != [] && AllLetters(v)
    requires CiLitAt(num + t', k, v)
    requires k > 0 ==> !WordAt(num + t', k - 1)
    ensures k > |num|
  {
    var t := num + t';
    assert forall x :: 0 <= x < |num| ==> t[x] == num[x];
    assert ToLower(t[k + 0]) == ToLower(v[0]) && IsLetter(v[0]);
  }

  lemma {:induction false} WordOriginAfterCopy(w: string, num: string, s: string, i: nat, v: string, k: nat) returns (j: nat)
    requires WellFormedWord((w, num))
    requires v != [] && AllLetters(v)
    requires i < |s| && !Fires(WordMatcher(w, num), s, i) && k > 0
    requires CiLitAt(ReplaceFrom(WordMatcher(w, num), s, i), k, v)
    requires !WordAt(ReplaceFrom(WordMatcher(w, num), s, i), k - 1)
    requires !WordAt(ReplaceFrom(WordMatcher(w, num), s, i), k + |v|)
    ensures i <= j && WholeWordAt(s, j, v) && !WholeWordAt(s, j, w)
    decreases |s| - i, 0
  {
    var f := WordMatcher(w, num);
    var t' := ReplaceFrom(f, s, i + 1);
    assert ReplaceFrom(f, s, i) == [s[i]] + t' by {
      Step(f, s, i);
    }
    CopyWindow(s[i], t', k, v);
    var k' := k - 1;
    j := WordOrigin(w, num, s, i + 1, v, k');
  }

  /** A whole-word window of `[c] + b` that does not start at 0 is one of `b`,
      and one starting at 1 has a non-word character `c` before it. */
  lemma CopyWindow(c: char, b: string, k: nat, v: string)
    requires k > 0
    requires CiLitAt([c] + b, k, v) && !WordAt([c] + b, k - 1) && !WordAt([c] + b, k + |v|)
    ensures CiLitAt(b, k - 1, v) && !WordAt(b, k - 1 + |v|)
    ensures if k == 1 then !IsWordChar(c) else !WordAt(b, k - 2)
  {
    ShiftConcat([c], b, k - 1, v);
    ShiftConcat([c], b, k - 1 + |v|, v);
    if k > 1 {
      ShiftConcat([c], b, k - 2, v);
    }
  }

  /** App.js:72 for one entry: no whole-word `w` is left. */
  lemma WordPassEliminates(w: string, num: string, s: string)
    requires WellFormedWord((w, num))
    ensures NoWholeWord(ReplaceAll(WordMatcher(w, num), s), w)
  {
    var t := ReplaceAll(WordMatcher(w, num), s);
    forall k: nat ensures !WholeWordAt(t, k, w) {
      if WholeWordAt(t, k, w) {
        var j := WordOrigin(w, num, s, 0, w, k);
      }
    }
  }

  /** App.js:72 for one entry creates no whole-word occurrence of any word. */
  lemma WordPassPreserves(w: string, num: string, s: string, v: string)
    requires WellFormedWord((w, num))
    requires v != [] && AllLetters(v)
    requires NoWholeWord(s, v)
    ensures NoWholeWord(ReplaceAll(WordMatcher(w, num), s), v)
  {
    var t := ReplaceAll(WordMatcher(w, num), s);
    forall k: nat ensures !WholeWordAt(t, k, v) {
      if WholeWordAt(t, k, v) {
        var j := WordOrigin(w, num, s, 0, v, k);
      }
    }
  }

  /** After `n` iterations of the loop none of the first `n` words is left. */
  lemma {:induction false} NumberWordsUpToClean(s: string, n: nat)
    requires n <= |NumberWords|
    ensures forall x :: 0 <= x < n ==> NoWholeWord(NumberWordsUpTo(s, n), NumberWords[x].0)
  {
    NumberWordsWellFormed();
    if n > 0 {
      NumberWordsUpToClean(s, n - 1);
      var e := NumberWords[n - 1];
      var t := NumberWordsUpTo(s, n - 1);
      forall x | 0 <= x < n - 1 ensures NoWholeWord(NumberWordsUpTo(s, n), NumberWords[x].0) {
        WordPassPreserves(e.0, e.1, t, NumberWords[x].0);
      }
      WordPassEliminates(e.0, e.1, t);
    }
  }

  /** App.js:70-73: after the loop no number word is left as a whole word. */
  lemma NumberWordsGone(s: string)
    ensures forall x :: 0 <= x < |NumberWords| ==>
      NoWholeWord(NumberWordsUpTo(s, |NumberWords|), NumberWords[x].0)
  {
    NumberWordsUpToClean(s, |NumberWords|);
  }

  /** The leftmost whole-word `w` becomes its digits; what precedes it is untouched. */
  lemma FirstWordReplaced(w: string, num: string, s: string, j: nat)
    requires WholeWordAt(s, j, w) && w != []
    requires forall x: nat :: x < j ==> !WholeWordAt(s, x, w)
    ensures ReplaceAll(WordMatcher(w, num), s) == s[..j] + num + ReplaceFrom(WordMatcher(w, num), s, j + |w|)
  {
    var f := WordMatcher(w, num);
    forall x | 0 <= x < j ensures !Fires(f, s, x) {
      WordFires(w, num, s, x);
    }
    CopiedStretch(f, s, 0, j);
    var rest := ReplaceFrom(f, s, j + |w|);
    assert ReplaceFrom(f, s, j) == num + rest by {
      WordFires(w, num, s, j);
      Step(f, s, j);
    }
    assert s[0..j] + (num + rest) == s[..j] + num + rest by {
      assert s[..j] == s[0..j];
    }
  }

  /** `\b` keeps "ten" inside "tenant" from being replaced. */
  lemma TenantUntouched()
    ensures ReplaceAll(WordMatcher("ten", "10"), "tenant") == "tenant"
  {
    var s := "tenant";
    assert !WordAt(s, -1) && WordAt(s, 3);
    forall x | 0 <= x < |s| ensures !Fires(WordMatcher("ten", "10"), s, x) {
      if 0 < x <= 3 {
        assert ToLower(s[x]) != ToLower("ten"[0]);
      }
    }
    NoMatchIdentity(WordMatcher("ten", "10"), s);
  }
}
