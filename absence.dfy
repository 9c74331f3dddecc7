/** Characters that `replaceText` removes stay removed: no `&` survives line 67,
    and no `!`, `?`, `$`, `#` or `*` survives lines 79-82, up to the value returned
    (App.js:66-90). */
module Absence {
  import opened Chars
  import opened Scan
  import opened Rules
  import opened Pipeline
  import opened Capitalize
  import Punctuation

  /** A unit rule never adds a character that is not a digit and not in its abbreviation. */
  lemma UnitPassKeepsOut(r: UnitRule, s: string, c: char)
    requires WellFormedRule(r) && !IsDigit(c) && c !in r.abbrev && c !in s
    ensures c !in ReplaceAll(UnitMatcher(r), s)
  {
    var f := UnitMatcher(r);
    forall x | 0 <= x < |s| && Fires(f, s, x) ensures c !in f(s, x).value.text {
      var h := f(s, x).value;
      if IsDigit(s[x]) && h.text == s[x..DigitRunEnd(s, x)] + r.abbrev {
        assert forall y :: 0 <= y < |s[x..DigitRunEnd(s, x)]| ==> IsDigit(s[x..DigitRunEnd(s, x)][y]);
      }
    }
    assert s[0..] == s;
    KeepsOut(f, s, 0, c);
  }

  /** The first `n` unit rules keep out a character found in no abbreviation. */
  lemma {:induction false} UnitsUpToKeepsOut(s: string, n: nat, c: char)
    requires n <= |UnitConversions| && !IsDigit(c) && c !in s
    requires forall k :: 0 <= k < |UnitConversions| ==> c !in UnitConversions[k].abbrev
    ensures c !in UnitsUpTo(s, n)
  {
    UnitConversionsWellFormed();
    if n > 0 {
      UnitsUpToKeepsOut(s, n - 1, c);
      UnitPassKeepsOut(UnitConversions[n - 1], UnitsUpTo(s, n - 1), c);
    }
  }

  /** The first `n` number-word rules keep out any character that is not a digit. */
  lemma {:induction false} NumberWordsUpToKeepsOut(s: string, n: nat, c: char)
    requires n <= |NumberWords| && !IsDigit(c) && c !in s
    ensures c !in NumberWordsUpTo(s, n)
  {
    NumberWordsWellFormed();
    if n > 0 {
      NumberWordsUpToKeepsOut(s, n - 1, c);
      var e := NumberWords[n - 1];
      var t := NumberWordsUpTo(s, n - 1);
      assert WellFormedWord(e);
      assert c !in e.1;
      assert t[0..] == t;
      KeepsOut(WordMatcher(e.0, e.1), t, 0, c);
    }
  }

  /** Lines 83-84 add only digits and the letters, space and period of ` in.` and ` ft.`. */
  lemma QuoteUnitsKeepsOut(s: string, c: char)
    requires !IsDigit(c) && c !in " in. ft." && c !in s
    ensures c !in QuoteUnits(s)
  {
    UnitConversionsWellFormed();
    UnitPassKeepsOut(QuoteInches, s, c);
    UnitPassKeepsOut(QuoteFeet, ReplaceAll(UnitMatcher(QuoteInches), s), c);
  }

  /** No `&` put in after line 67. */
  lemma AmpersandStaysOut(input: string)
    ensures '&' !in BeforePunctuate(input)
  {
    var a := ReplaceAll(Ampersand, input);
    Punctuation.AmpersandReplaced(input);
    NumberWordsUpToKeepsOut(a, |NumberWords|, '&');
    UnitsUpToKeepsOut(NumberWordsUpTo(a, |NumberWords|), |UnitConversions|, '&');
  }

  /** Lines 79-82 keep out an `&` that is not there and remove the other five. */
  lemma PunctuateClean(u: string)
    requires '&' !in u
    ensures forall c :: c in "&!?$#*" ==> c !in Punctuate(u)
  {
    Punctuation.PunctuateDeletesOnly(u);
    assert multiset(u)['&'] == 0;
  }

  /** Lines 83-84 put none of the six back. */
  lemma QuoteUnitsClean(p: string)
    requires forall c :: c in "&!?$#*" ==> c !in p
    ensures forall c :: c in "&!?$#*" ==> c !in QuoteUnits(p)
  {
    forall c | c in "&!?$#*" ensures c !in QuoteUnits(p) {
      QuoteUnitsKeepsOut(p, c);
    }
  }

  /** App.js:67-84: no `&`, `!`, `?`, `$`, `#` or `*` reaches `capitalizeFirstLetter`. */
  lemma RewriteClean(input: string)
    ensures forall c :: c in "&!?$#*" ==> c !in Rewrite(input)
  {
    var u := BeforePunctuate(input);
    AmpersandStaysOut(input);
    PunctuateClean(u);
    QuoteUnitsClean(Punctuate(u));
    assert Rewrite(input) == QuoteUnits(Punctuate(u));
  }

  // ----- capitalizeFirstLetter -----

  /** A change of letter case keeps out every non-letter. */
  lemma CaseKeepsOut(s: string, t: string, c: char)
    requires SameUpToCase(s, t) && !IsLetter(c) && c !in s
    ensures c !in t
  {
    forall k | 0 <= k < |t| ensures t[k] != c {
      assert s[k] != c;
      assert ToLower(t[k]) == ToLower(s[k]);
    }
  }

  lemma {:induction false} SplitFromKeepsOut(s: string, p: nat, q: nat, c: char)
    requires p <= q <= |s| && c !in s
    ensures forall n :: 0 <= n < |SplitFrom(s, p, q)| ==> c !in SplitFrom(s, p, q)[n]
    decreases |s| - q
  {
    if q == |s| {
      assert forall y :: 0 <= y < |s[p..]| ==> s[p..][y] == s[p + y];
    } else if SplitsAt(s, q) {
      assert forall y :: 0 <= y < |s[p..q]| ==> s[p..q][y] == s[p + y];
      SplitFromKeepsOut(s, SpaceRunEnd(s, q), SpaceRunEnd(s, q), c);
    } else {
      SplitFromKeepsOut(s, p, q + 1, c);
    }
  }

  /** An upper-casing of a suffix keeps out every non-letter. */
  lemma SuffixUpcaseKeepsOut(t: string, r: string, c: char)
    requires |r| <= |t| && UpcaseOf(t[|t| - |r|..], r)
    requires !IsLetter(c) && c !in t
    ensures c !in r
  {
    var m := |t| - |r|;
    assert forall y :: 0 <= y < |r| ==> t[m..][y] == t[m + y];
    UpcaseIsSameUpToCase(t[m..], r);
    CaseKeepsOut(t[m..], r, c);
  }

  lemma {:induction false} JoinKeepsOut(xs: seq<string>, sep: string, c: char)
    requires c !in sep
    requires forall n :: 0 <= n < |xs| ==> c !in xs[n]
    ensures c !in Join(xs, sep)
  {
    if |xs| > 1 {
      JoinKeepsOut(xs[1..], sep, c);
      assert xs[1..][0] == xs[1];
    }
  }

  /** `capitalizeFirstLetter` adds no character other than letters and the joining space. */
  lemma CapitalizeKeepsOut(text: string, c: char)
    requires !IsLetter(c) && c != ' ' && c !in text
    ensures c !in CapitalizeFirstLetter(text)
  {
    var low := LowerString(text);
    LowerIsSameUpToCase(text);
    CaseKeepsOut(text, low, c);
    SplitFromKeepsOut(low, 0, 0, c);
    var pieces := Split(low);
    var done := ProcessSentences(pieces);
    forall n | 0 <= n < |done| ensures c !in done[n] {
      SuffixUpcaseKeepsOut(pieces[n], RemoveStartingWords(pieces[n]), c);
      UpcaseIsSameUpToCase(RemoveStartingWords(pieces[n]), done[n]);
      CaseKeepsOut(RemoveStartingWords(pieces[n]), done[n], c);
    }
    JoinKeepsOut(done, " ", c);
    UpcaseIsSameUpToCase(Join(done, " "), CapitalizeFirstLetter(text));
    CaseKeepsOut(Join(done, " "), CapitalizeFirstLetter(text), c);
  }

  /** App.js:66-90: the value `replaceText` returns contains no `&`, `!`, `?`, `$`, `#` or `*`. */
  lemma NormalizeClean(input: string)
    ensures forall c :: c in "&!?$#*" ==> c !in Normalize(input)
  {
    var t := Rewrite(input);
    RewriteClean(input);
    forall c | c in "&!?$#*" ensures c !in Normalize(input) {
      RemovedInert(c);
      CapitalizeKeepsOut(t, c);
    }
  }

  /** The removed characters are neither letters nor the joining space. */
  lemma RemovedInert(c: char)
    requires c in "&!?$#*"
    ensures !IsLetter(c) && c != ' '
  {
  }
}
