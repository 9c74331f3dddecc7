/** `capitalizeFirstLetter` (App.js:44-64) as a whole: the result is the joined,
    capitalised sentences with the unit tokens upper-cased; it is never longer
    than the input; and it opens with an upper-case word character whenever its
    first sentence does. */
module CapitalizeFirstProofs {
  import opened Chars
  import opened Scan
  import opened Capitalize
  import opened SentenceProofs
  import opened SentenceCaseProofs
  import opened UnitCaseProofs

  /** Reference definition of the callback of App.js:52-55 over all sentences. */
  function CapitalizedSentences(xs: seq<string>): (r: seq<string>)
    ensures |r| == |xs|
  {
    seq(|xs|, k requires 0 <= k < |xs| => Capitalized(RemoveStartingWords(xs[k])))
  }

  /** App.js:44-64: each sentence loses its filler word and has its sentence
      openings upper-cased; then every unit token of the joined text is upper-cased. */
  lemma CapitalizeFirstLetterIs(text: string)
    ensures CapitalizeFirstLetter(text)
      == UnitsUpcased(Join(CapitalizedSentences(Split(LowerString(text))), " "))
  {
    var xs := Split(LowerString(text));
    forall k | 0 <= k < |xs| ensures ProcessSentences(xs)[k] == CapitalizedSentences(xs)[k] {
      CapitalizeSentenceIsCapitalized(RemoveStartingWords(xs[k]));
    }
    assert ProcessSentences(xs) == CapitalizedSentences(xs);
    UpperUnitsIsUnitsUpcased(Join(ProcessSentences(xs), " "));
  }

  /** Joining pieces that are each no longer than their counterparts gives no longer a string. */
  lemma {:induction false} JoinShorter(xs: seq<string>, ys: seq<string>, sep: string)
    requires |xs| == |ys|
    requires forall k :: 0 <= k < |xs| ==> |ys[k]| <= |xs[k]|
    ensures |Join(ys, sep)| <= |Join(xs, sep)|
    decreases |xs|
  {
    if |xs| > 1 {
      JoinShorter(xs[1..], ys[1..], sep);
    }
  }

  /** Collapsing the white-space runs after sentence ends does not lengthen the text. */
  lemma SplitJoinShorter(s: string)
    ensures |Join(Split(s), " ")| <= |s|
  {
    SplitJoinCollapses(s);
    forall j | 0 <= j < |s| && Fires(RunMatcher, s, j)
      ensures |RunMatcher(s, j).value.text| <= RunMatcher(s, j).value.len
    {
    }
    ScanShrinks(RunMatcher, s, 0);
  }

  /** `capitalizeFirstLetter` never lengthens the text: it only removes filler
      words and white space and changes the case of letters. */
  lemma CapitalizeFirstLetterShorter(text: string)
    ensures |CapitalizeFirstLetter(text)| <= |text|
  {
    var xs := Split(LowerString(text));
    var ps := ProcessSentences(xs);
    forall k | 0 <= k < |xs| ensures |ps[k]| <= |xs[k]| {
      assert |CapitalizeSentence(RemoveStartingWords(xs[k]))| == |RemoveStartingWords(xs[k])|;
    }
    JoinShorter(xs, ps, " ");
    SplitJoinShorter(LowerString(text));
  }

  /** The first piece is the start of the joined text. */
  lemma JoinHead(xs: seq<string>, sep: string)
    requires |xs| >= 1
    ensures |xs[0]| <= |Join(xs, sep)| && Join(xs, sep)[..|xs[0]|] == xs[0]
  {
    if |xs| > 1 {
      assert Join(xs, sep) == xs[0] + (sep + Join(xs[1..], sep));
    }
  }

  lemma ToUpperTwice(c: char)
    ensures ToUpper(ToUpper(c)) == ToUpper(c)
  {
  }

  /** The unit pass keeps an opening of white space and an upper-case word character. */
  lemma UpcasedOpening(j: string, x: nat)
    requires x < |j| && IsWordChar(j[x]) && ToUpper(j[x]) == j[x]
    requires forall y :: 0 <= y < x ==> IsSpace(j[y])
    ensures var r := UnitsUpcased(j);
      WordAfterSpaces(r, 0) && SpaceRunEnd(r, 0) == x && r[x] == j[x]
  {
    var r := UnitsUpcased(j);
    forall y | 0 <= y < x ensures IsSpace(r[y]) {
      UpcasedAt(j, y);
    }
    UpcasedAt(j, x);
    SpaceRunEndIs(r, 0, x);
  }

  /** The joined text opens like its first capitalised sentence. */
  lemma JoinedOpening(p: string, cs: seq<string>)
    requires |cs| >= 1 && cs[0] == Capitalized(p) && WordAfterSpaces(p, 0)
    ensures var j := Join(cs, " "); var x := SpaceRunEnd(p, 0);
      x < |j| && j[x] == ToUpper(p[x]) && forall y :: 0 <= y < x ==> IsSpace(j[y])
  {
    var j := Join(cs, " ");
    var x := SpaceRunEnd(p, 0);
    CapitalizedOpening(p);
    JoinHead(cs, " ");
    assert j[..|cs[0]|][x] == j[x];
    forall y | 0 <= y < x ensures IsSpace(j[y]) {
      assert j[..|cs[0]|][y] == j[y];
      assert Capitalized(p)[..x][y] == p[y];
    }
  }

  /** App.js:52-55 with App.js:60-63: when the first sentence, once its filler
      word is cut off, has a word character after its leading white space, the
      result opens, after that same white space, with that word character upper-cased. */
  lemma FirstSentenceOpensUpper(text: string)
    ensures var p := RemoveStartingWords(Split(LowerString(text))[0]);
      var r := CapitalizeFirstLetter(text);
      WordAfterSpaces(p, 0) ==>
        WordAfterSpaces(r, 0) && SpaceRunEnd(r, 0) == SpaceRunEnd(p, 0)
        && r[SpaceRunEnd(p, 0)] == ToUpper(p[SpaceRunEnd(p, 0)])
  {
    var xs := Split(LowerString(text));
    var p := RemoveStartingWords(xs[0]);
    if WordAfterSpaces(p, 0) {
      var cs := CapitalizedSentences(xs);
      var x := SpaceRunEnd(p, 0);
      CapitalizeFirstLetterIs(text);
      JoinedOpening(p, cs);
      ToUpperTwice(p[x]);
      UpcasedOpening(Join(cs, " "), x);
    }
  }
}
