/** Where periods can be in the output of `replaceText`: line 79 turns every
    `.` into `,`, so the only periods left are those of the ` in.` and ` ft.`
    that lines 83-84 insert, and `capitalizeFirstLetter` moves none of them
    away from its `in` or `ft` (App.js:79-87, 44-64). */
module Periods {
  import opened Chars
  import opened Scan
  import opened Rules
  import opened Pipeline
  import opened Capitalize
  import opened UnitProofs
  import Punctuation

  /** `a b` spell `in` or `ft`, in any case. */
  predicate IsTag(a: char, b: char)
  {
    (ToLower(a) == 'i' && ToLower(b) == 'n') || (ToLower(a) == 'f' && ToLower(b) == 't')
  }

  /** Every `.` of `t` comes right after `in` or `ft`. */
  ghost predicate Tagged(t: string)
  {
    forall k :: 0 <= k < |t| && t[k] == '.' ==> k >= 2 && IsTag(t[k - 2], t[k - 1])
  }

  lemma TagIsLetters(a: char, b: char)
    requires IsTag(a, b)
    ensures IsLetter(a) && IsLetter(b)
  {
    assert !IsLetter(a) ==> ToLower(a) == a;
    assert !IsLetter(b) ==> ToLower(b) == b;
  }

  lemma TaggedConcat(a: string, b: string)
    requires Tagged(a) && Tagged(b)
    ensures Tagged(a + b)
  {
    var u := a + b;
    forall k | 0 <= k < |u| && u[k] == '.' ensures k >= 2 && IsTag(u[k - 2], u[k - 1]) {
      if k < |a| {
        assert u[k] == a[k] && u[k - 2] == a[k - 2] && u[k - 1] == a[k - 1];
      } else {
        var j := k - |a|;
        assert u[k] == b[j] && u[k - 2] == b[j - 2] && u[k - 1] == b[j - 1];
      }
    }
  }

  /** Changing the case of letters keeps every period after its tag. */
  lemma TaggedCase(s: string, t: string)
    requires SameUpToCase(s, t) && Tagged(s)
    ensures Tagged(t)
  {
    forall k | 0 <= k < |t| && t[k] == '.' ensures k >= 2 && IsTag(t[k - 2], t[k - 1]) {
      assert ToLower(s[k]) == ToLower(t[k]) == '.';
      assert !IsLetter(s[k]);
      assert ToLower(t[k - 2]) == ToLower(s[k - 2]) && ToLower(t[k - 1]) == ToLower(s[k - 1]);
    }
  }

  /** A piece that starts at the beginning or after a non-letter keeps the property. */
  lemma TaggedSlice(t: string, p: nat, q: nat)
    requires p <= q <= |t| && Tagged(t)
    requires p == 0 || !IsLetter(t[p - 1])
    ensures Tagged(t[p..q])
  {
    var u := t[p..q];
    forall k | 0 <= k < |u| && u[k] == '.' ensures k >= 2 && IsTag(u[k - 2], u[k - 1]) {
      assert t[p + k] == '.';
      TagIsLetters(t[p + k - 2], t[p + k - 1]);
      assert u[k - 2] == t[p + k - 2] && u[k - 1] == t[p + k - 1];
    }
  }

  /** Appending one character of `s` to an output `X` that ends like `s[..i]`
      does in letters. */
  lemma TaggedAppend(s: string, i: nat, X: string)
    requires i < |s| && Tagged(s) && Tagged(X)
    requires 1 <= i && IsLetter(s[i - 1]) ==> 1 <= |X| && X[|X| - 1] == s[i - 1]
    requires 2 <= i && IsLetter(s[i - 1]) && IsLetter(s[i - 2]) ==> 2 <= |X| && X[|X| - 2] == s[i - 2]
    ensures Tagged(X + [s[i]])
  {
    var u := X + [s[i]];
    forall k | 0 <= k < |u| && u[k] == '.' ensures k >= 2 && IsTag(u[k - 2], u[k - 1]) {
      if k < |X| {
        assert u[k] == X[k] && u[k - 2] == X[k - 2] && u[k - 1] == X[k - 1];
      } else {
        assert s[i] == '.';
        TagIsLetters(s[i - 2], s[i - 1]);
        assert u[k - 1] == X[|X| - 1] && u[k - 2] == X[|X| - 2];
      }
    }
  }

  /** A match at `x`, if any, puts in tagged text and consumes a stretch that ends in a non-letter. */
  ghost predicate TagHit(f: Matcher, s: string, x: nat)
  {
    Fires(f, s, x) ==> Tagged(f(s, x).value.text) && !IsLetter(s[x + f(s, x).value.len - 1])
  }

  /** The conditions under which a scan keeps every period after its tag: its
      replacements are tagged, each of its matches ends in a non-letter, and the
      output `X` produced before position `i` ends in the letters `s` has there. */
  ghost predicate TagScan(f: Matcher, s: string, i: nat, X: string)
  {
    i <= |s| && Tagged(s) && Tagged(X)
    && (forall x :: 0 <= x < |s| ==> TagHit(f, s, x))
    && (1 <= i && IsLetter(s[i - 1]) ==> 1 <= |X| && X[|X| - 1] == s[i - 1])
    && (2 <= i && IsLetter(s[i - 1]) && IsLetter(s[i - 2]) ==> 2 <= |X| && X[|X| - 2] == s[i - 2])
  }

  /** A scan that keeps the conditions keeps the periods tagged; `X` is the
      output produced before position `i`. */
  lemma {:induction false} TaggedFrom(f: Matcher, s: string, i: nat, X: string)
    requires TagScan(f, s, i, X)
    ensures Tagged(X + ReplaceFrom(f, s, i))
    decreases |s| - i, 1
  {
    if i == |s| {
      assert X + ReplaceFrom(f, s, i) == X;
    } else if Fires(f, s, i) {
      TaggedFromHit(f, s, i, X);
    } else {
      TaggedFromCopy(f, s, i, X);
    }
  }

  lemma {:induction false} TaggedFromHit(f: Matcher, s: string, i: nat, X: string)
    requires TagScan(f, s, i, X) && Fires(f, s, i)
    ensures Tagged(X + ReplaceFrom(f, s, i))
    decreases |s| - i, 0
  {
    var h := f(s, i).value;
    var rest := ReplaceFrom(f, s, i + h.len);
    assert ReplaceFrom(f, s, i) == h.text + rest by {
      Step(f, s, i);
    }
    TagScanAfterHit(f, s, i, X);
    TaggedFrom(f, s, i + h.len, X + h.text);
    assert X + (h.text + rest) == (X + h.text) + rest;
  }

  lemma TagScanAfterHit(f: Matcher, s: string, i: nat, X: string)
    requires TagScan(f, s, i, X) && Fires(f, s, i)
    ensures TagScan(f, s, i + f(s, i).value.len, X + f(s, i).value.text)
  {
    var h := f(s, i).value;
    assert TagHit(f, s, i);
    TaggedConcat(X, h.text);
  }

  lemma {:induction false} TaggedFromCopy(f: Matcher, s: string, i: nat, X: string)
    requires TagScan(f, s, i, X) && i < |s| && !Fires(f, s, i)
    ensures Tagged(X + ReplaceFrom(f, s, i))
    decreases |s| - i, 0
  {
    Step(f, s, i);
    TaggedAppend(s, i, X);
    var X' := X + [s[i]];
    assert X'[|X'| - 1] == s[i];
    assert |X| >= 1 ==> X'[|X'| - 2] == X[|X| - 1];
    assert TagScan(f, s, i + 1, X');
    TaggedFrom(f, s, i + 1, X');
    assert X + ReplaceFrom(f, s, i) == X' + ReplaceFrom(f, s, i + 1);
  }

  /** Digits followed by ` in.` or ` ft.`. */
  lemma DigitsTagTagged(d: string, abbrev: string)
    requires AllDigits(d) && (abbrev == " in." || abbrev == " ft.")
    ensures Tagged(d + abbrev)
  {
    var u := d + abbrev;
    assert forall j :: 0 <= j < |d| ==> u[j] == d[j];
    forall k | 0 <= k < |u| && u[k] == '.' ensures k >= 2 && IsTag(u[k - 2], u[k - 1]) {
      if k >= |d| {
        assert u[k] == abbrev[k - |d|];
        assert u[k - 2] == abbrev[1] && u[k - 1] == abbrev[2];
      }
    }
  }

  /** App.js:83-84: what a quote rule puts in is tagged, and what it consumes ends with the quote. */
  lemma QuoteHits(r: UnitRule, s: string)
    requires r == QuoteInches || r == QuoteFeet
    ensures WellFormedRule(r)
    ensures forall x :: 0 <= x < |s| ==> TagHit(UnitMatcher(r), s, x)
  {
    UnitConversionsWellFormed();
    forall x | 0 <= x < |s| ensures TagHit(UnitMatcher(r), s, x) {
      QuoteHitAt(r, s, x);
    }
  }

  lemma QuoteHitAt(r: UnitRule, s: string, x: nat)
    requires r == QuoteInches || r == QuoteFeet
    requires WellFormedRule(r)
    ensures TagHit(UnitMatcher(r), s, x)
  {
    var f := UnitMatcher(r);
    if Fires(f, s, x) {
      AnchoredUnitHit(r, s, x);
      var d := DigitRunEnd(s, x);
      var k := SpaceRunEnd(s, d);
      assert AllDigits(s[x..d]);
      DigitsTagTagged(s[x..d], r.abbrev);
      assert CiLitAt(s, k + 1, r.optional);
      assert x + f(s, x).value.len - 1 == k;
      assert ToLower(s[k + 0]) == ToLower(r.words[0][0]);
    }
  }


  /** App.js:83-84: a quote rule matches exactly where a digit run is followed,
      after white space, by its quote mark; the digits stay and the white space
      and the quote mark become ` in.` or ` ft.`. */
  lemma QuoteRuleHit(r: UnitRule, s: string, i: nat)
    requires r == QuoteInches || r == QuoteFeet
    ensures Fires(UnitMatcher(r), s, i) <==>
      i < |s| && IsDigit(s[i]) && SpaceRunEnd(s, DigitRunEnd(s, i)) < |s|
      && s[SpaceRunEnd(s, DigitRunEnd(s, i))] == r.words[0][0]
    ensures Fires(UnitMatcher(r), s, i) ==>
      var h := UnitMatcher(r)(s, i).value;
      h.text == s[i..DigitRunEnd(s, i)] + r.abbrev && i + h.len == SpaceRunEnd(s, DigitRunEnd(s, i)) + 1
  {
    UnitConversionsWellFormed();
    AnchoredUnitHit(r, s, i);
    if i < |s| && IsDigit(s[i]) {
      var k := SpaceRunEnd(s, DigitRunEnd(s, i));
      if k < |s| {
        assert CiLitAt(s, k, r.words[0]) <==> ToLower(s[k]) == ToLower(r.words[0][0]);
        assert CiLitAt(s, k + 1, r.optional);
      }
    }
  }

  /** App.js:83-84 on text without periods leave every period after its tag. */
  lemma QuoteUnitsTagged(s: string)
    requires '.' !in s
    ensures Tagged(QuoteUnits(s))
  {
    QuoteHits(QuoteInches, s);
    assert TagScan(UnitMatcher(QuoteInches), s, 0, []);
    TaggedFrom(UnitMatcher(QuoteInches), s, 0, []);
    var t := ReplaceAll(UnitMatcher(QuoteInches), s);
    assert [] + t == t;
    QuoteHits(QuoteFeet, t);
    assert TagScan(UnitMatcher(QuoteFeet), t, 0, []);
    TaggedFrom(UnitMatcher(QuoteFeet), t, 0, []);
    assert [] + ReplaceAll(UnitMatcher(QuoteFeet), t) == ReplaceAll(UnitMatcher(QuoteFeet), t);
  }

  /** App.js:67-84: every period handed to `capitalizeFirstLetter` is one that lines 83-84 put in. */
  lemma RewriteTagged(input: string)
    ensures Tagged(Rewrite(input))
  {
    var u := UnitsUpTo(NumberWordsUpTo(ReplaceAll(Ampersand, input), |NumberWords|), |UnitConversions|);
    Punctuation.PunctuateDeletesOnly(u);
    assert '.' in ".!?$#*";
    QuoteUnitsTagged(Punctuate(u));
  }

  // ----- capitalizeFirstLetter -----

  lemma {:induction false} SplitFromTagged(s: string, p: nat, q: nat)
    requires p <= q <= |s| && Tagged(s)
    requires p == 0 || IsSpace(s[p - 1])
    ensures forall n :: 0 <= n < |SplitFrom(s, p, q)| ==> Tagged(SplitFrom(s, p, q)[n])
    decreases |s| - q
  {
    if q == |s| {
      TaggedSlice(s, p, |s|);
      assert s[p..] == s[p..|s|];
    } else if SplitsAt(s, q) {
      var e := SpaceRunEnd(s, q);
      TaggedSlice(s, p, q);
      SplitFromTagged(s, e, e);
    } else {
      SplitFromTagged(s, p, q + 1);
    }
  }

  lemma SplitTagged(s: string)
    requires Tagged(s)
    ensures forall n :: 0 <= n < |Split(s)| ==> Tagged(Split(s)[n])
  {
    SplitFromTagged(s, 0, 0);
  }

  /** An upper-casing of a suffix that starts at the beginning or after white space keeps the tags. */
  lemma SuffixUpcaseTagged(t: string, r: string)
    requires Tagged(t) && |r| <= |t| && UpcaseOf(t[|t| - |r|..], r)
    requires |r| == |t| || IsSpace(t[|t| - |r| - 1])
    ensures Tagged(r)
  {
    var m := |t| - |r|;
    TaggedSlice(t, m, |t|);
    assert t[m..|t|] == t[m..];
    UpcaseIsSameUpToCase(t[m..], r);
    TaggedCase(t[m..], r);
  }

  lemma RemoveStartingWordsTagged(t: string)
    requires Tagged(t)
    ensures Tagged(RemoveStartingWords(t))
  {
    SuffixUpcaseTagged(t, RemoveStartingWords(t));
  }

  lemma {:induction false} JoinTagged(xs: seq<string>, sep: string)
    requires Tagged(sep)
    requires forall n :: 0 <= n < |xs| ==> Tagged(xs[n])
    ensures Tagged(Join(xs, sep))
  {
    if |xs| > 1 {
      JoinTagged(xs[1..], sep);
      assert xs[1..][0] == xs[1];
      TaggedConcat(xs[0], sep);
      TaggedConcat(xs[0] + sep, Join(xs[1..], sep));
    }
  }

  /** The callback of App.js:52-55 leaves every period of a sentence after its tag. */
  lemma SentenceTagged(p: string)
    requires Tagged(p)
    ensures Tagged(CapitalizeSentence(RemoveStartingWords(p)))
  {
    var r := RemoveStartingWords(p);
    RemoveStartingWordsTagged(p);
    UpcaseIsSameUpToCase(r, CapitalizeSentence(r));
    TaggedCase(r, CapitalizeSentence(r));
  }

  /** `capitalizeFirstLetter` leaves every period after its tag. */
  lemma CapitalizeTagged(text: string)
    requires Tagged(text)
    ensures Tagged(CapitalizeFirstLetter(text))
  {
    var low := LowerString(text);
    LowerIsSameUpToCase(text);
    TaggedCase(text, low);
    SplitTagged(low);
    var pieces := Split(low);
    var done := ProcessSentences(pieces);
    forall n | 0 <= n < |done| ensures Tagged(done[n]) {
      SentenceTagged(pieces[n]);
    }
    JoinTagged(done, " ");
    var joined := Join(done, " ");
    UpcaseIsSameUpToCase(joined, UpperUnits(joined));
    TaggedCase(joined, UpperUnits(joined));
  }

  /** App.js:66-90: every `.` of the value `replaceText` returns comes right after `in` or `ft`, in some case. */
  lemma NormalizeTagged(input: string)
    ensures Tagged(Normalize(input))
  {
    RewriteTagged(input);
    CapitalizeTagged(Rewrite(input));
  }
}
