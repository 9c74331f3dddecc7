/** `removeStartingWords` and `capitalizeFirstLetter` (App.js:37-64): lower-case
    the text, cut it into sentences after `.`, `!` or `?`, drop one leading
    filler word per sentence, upper-case sentence-initial word characters, join
    with single spaces, and upper-case the unit tokens. */
module Capitalize {
  import opened Chars
  import opened Scan

  // ----- removeStartingWords (App.js:37-42) -----

  /** `wordsToRemove`, in alternation order. */
  const StartingWords: seq<string> := ["The", "This", "These", "An", "A", "It", "Its"]

  /** The word `w`, in any case, follows the leading white space of `t` and is itself followed by white space. */
  predicate FillerAt(t: string, w: string)
  {
    var k := SpaceRunEnd(t, 0);
    CiLitAt(t, k, w) && k + |w| < |t| && IsSpace(t[k + |w|])
  }

  /** `t` starts with `\s*<w>\s+` ending at `m`, the `\s+` taken greedily. */
  ghost predicate FillerPrefix(t: string, w: string, m: nat)
  {
    var k := SpaceRunEnd(t, 0);
    FillerAt(t, w) && k + |w| < m <= |t|
    && (forall x :: k + |w| <= x < m ==> IsSpace(t[x]))
    && (m == |t| || !IsSpace(t[m]))
  }

  /** The first alternative of `ws`, in order, that appears at `k` followed by white space. */
  function FillerFrom(t: string, k: nat, ws: seq<string>): (m: Option<nat>)
    requires k == SpaceRunEnd(t, 0)
    ensures m.Some? ==> exists n :: 0 <= n < |ws| && FillerPrefix(t, ws[n], m.value)
    ensures m.None? ==> forall n :: 0 <= n < |ws| ==> !FillerAt(t, ws[n])
    decreases |ws|
  {
    if ws == [] then None
    else if FillerAt(t, ws[0]) then
      Some(SpaceRunEnd(t, k + |ws[0]|))
    else
      var m := FillerFrom(t, k, ws[1..]);
      assert m.Some? ==> exists n :: 0 <= n < |ws[1..]| && FillerPrefix(t, ws[1..][n], m.value);
      assert forall n :: 0 <= n < |ws[1..]| ==> ws[1..][n] == ws[n + 1];
      m
  }

  /** End of the match of `^\s*(The|This|These|An|A|It|Its)\s+` with the flag `i`. */
  function FillerEnd(t: string): (m: Option<nat>)
    ensures m.Some? ==> exists n :: 0 <= n < |StartingWords| && FillerPrefix(t, StartingWords[n], m.value)
    ensures m.None? ==> forall n :: 0 <= n < |StartingWords| ==> !FillerAt(t, StartingWords[n])
  {
    FillerFrom(t, SpaceRunEnd(t, 0), StartingWords)
  }

  /** The first character after the white-space run from `j` is a word character. */
  predicate WordAfterSpaces(t: string, j: nat)
    requires j <= |t|
  {
    SpaceRunEnd(t, j) < |t| && IsWordChar(t[SpaceRunEnd(t, j)])
  }

  /** `.replace(/^\s*\w/, c => c.toUpperCase())`: the first non-blank character is
      upper-cased when it is a word character. */
  function UpperFirstWord(t: string): (r: string)
    ensures UpcaseOf(t, r)
    ensures forall x :: 0 <= x < |t| && x != SpaceRunEnd(t, 0) ==> r[x] == t[x]
    ensures WordAfterSpaces(t, 0) ==> r[SpaceRunEnd(t, 0)] == ToUpper(t[SpaceRunEnd(t, 0)])
    ensures !WordAfterSpaces(t, 0) ==> r == t
  {
    var k := SpaceRunEnd(t, 0);
    if WordAfterSpaces(t, 0) then t[..k] + [ToUpper(t[k])] + t[k + 1..] else t
  }

  /** What is left once the filler prefix, if any, is cut off. */
  function StripFiller(t: string): (u: string)
    ensures |u| <= |t| && u == t[|t| - |u|..]
    ensures FillerEnd(t).None? <==> u == t
    ensures FillerEnd(t).Some? ==> |u| < |t| && IsSpace(t[|t| - |u| - 1])
    ensures FillerEnd(t).Some? ==> u == t[FillerEnd(t).value..]
  {
    match FillerEnd(t)
    case Some(m) => t[m..]
    case None => t
  }

  /** `removeStartingWords` (App.js:37-42): what is left once a filler prefix
      is cut off, with its first non-blank word character upper-cased. */
  function RemoveStartingWords(t: string): (r: string)
    ensures |r| <= |t|
    ensures FillerEnd(t).None? ==> r == UpperFirstWord(t)
    ensures FillerEnd(t).Some? ==> |r| < |t| && IsSpace(t[|t| - |r| - 1])
    ensures FillerEnd(t).Some? ==> r == UpperFirstWord(t[FillerEnd(t).value..])
    ensures UpcaseOf(t[|t| - |r|..], r)
  {
    UpperFirstWord(StripFiller(t))
  }

  // ----- the capitalisation pass of line 54 -----

  /** `/(^\s*\w|[.!?]\s*\w)/g` tried at `i`; the match is upper-cased. */
  function SentenceStartHit(s: string, i: nat): (h: Option<Hit>)
    ensures h.Some? <==> (i == 0 && WordAfterSpaces(s, 0)) || (i < |s| && IsSentenceEnd(s[i]) && WordAfterSpaces(s, i + 1))
    ensures h.Some? ==> 0 < h.value.len <= |s| - i
    ensures h.Some? ==> i + h.value.len == SpaceRunEnd(s, if IsSentenceEnd(s[i]) then i + 1 else i) + 1
    ensures h.Some? ==> h.value.text == UpperString(s[i..i + h.value.len])
  {
    if i >= |s| then None
    else if i == 0 && WordAfterSpaces(s, 0) then
      var k := SpaceRunEnd(s, 0);
      Some(Hit(k + 1, UpperString(s[..k + 1])))
    else if IsSentenceEnd(s[i]) && WordAfterSpaces(s, i + 1) then
      var k := SpaceRunEnd(s, i + 1);
      Some(Hit(k + 1 - i, UpperString(s[i..k + 1])))
    else None
  }

  const SentenceStart: Matcher := (s: string, i: nat) => SentenceStartHit(s, i)

  /** The replace of App.js:54 on one sentence. */
  function CapitalizeSentence(sentence: string): (r: string)
    ensures UpcaseOf(sentence, r)
  {
    UpcaseReplace(SentenceStart, sentence, 0);
    ReplaceAll(SentenceStart, sentence)
  }

  // ----- the unit pass of lines 60-63 -----

  /** An alternative of `\b(W|H|D|GPM|L|in.|ft.)\b`: a literal, or a literal
      followed by the unescaped `.`, which matches any character but a line terminator. */
  datatype Token = Exact(lit: string) | AnyAfter(lit: string)

  /** `units` (App.js:46), in alternation order. */
  const UnitTokens: seq<Token> := [
    Exact("W"), Exact("H"), Exact("D"), Exact("GPM"), Exact("L"), AnyAfter("in"), AnyAfter("ft")
  ]

  /** End of a case-sensitive (flags `"g"` only) match of the token at `i`. */
  function TokenEnd(s: string, i: nat, tk: Token): (e: Option<nat>)
    ensures e.Some? ==> i < e.value <= |s|
  {
    match tk
    case Exact(lit) =>
      if lit != [] && LitAt(s, i, lit) then Some(i + |lit|) else None
    case AnyAfter(lit) =>
      if LitAt(s, i, lit) && i + |lit| < |s| && !IsLineTerminator(s[i + |lit|]) then Some(i + |lit| + 1) else None
  }

  /** The first alternative that matches at `i` and is followed by `\b`. */
  function TokensEnd(s: string, i: nat, tks: seq<Token>): (e: Option<nat>)
    ensures e.Some? ==> i < e.value <= |s| && IsBoundary(s, e.value)
    ensures e.Some? ==> exists n :: 0 <= n < |tks| && TokenEnd(s, i, tks[n]) == e
    decreases |tks|
  {
    if tks == [] then None
    else if TokenEnd(s, i, tks[0]).Some? && IsBoundary(s, TokenEnd(s, i, tks[0]).value) then
      TokenEnd(s, i, tks[0])
    else
        var e := TokensEnd(s, i, tks[1..]);
        assert e.Some? ==> exists n :: 0 <= n < |tks[1..]| && TokenEnd(s, i, tks[1..][n]) == e;
        assert forall n :: 0 <= n < |tks[1..]| ==> tks[1..][n] == tks[n + 1];
        e
  }

  /** `\b(W|H|D|GPM|L|in.|ft.)\b` tried at `i`; the match is upper-cased. */
  function UnitCaseHit(s: string, i: nat): (h: Option<Hit>)
    ensures h.Some? ==> 0 < h.value.len <= |s| - i
    ensures h.Some? ==> h.value.text == UpperString(s[i..i + h.value.len])
    ensures h.Some? ==> IsBoundary(s, i) && IsBoundary(s, i + h.value.len)
  {
    if IsBoundary(s, i) then
      match TokensEnd(s, i, UnitTokens)
      case Some(e) => Some(Hit(e - i, UpperString(s[i..e])))
      case None => None
    else None
  }

  const UnitCase: Matcher := (s: string, i: nat) => UnitCaseHit(s, i)

  /** App.js:60-63. */
  function UpperUnits(s: string): (r: string)
    ensures UpcaseOf(s, r)
  {
    UpcaseReplace(UnitCase, s, 0);
    ReplaceAll(UnitCase, s)
  }

  // ----- split and join (App.js:49, 57) -----

  /** A split point of `/(?<=[.!?])\s+/`: white space right after `.`, `!` or `?`. */
  predicate SplitsAt(s: string, q: nat)
  {
    0 < q < |s| && IsSentenceEnd(s[q - 1]) && IsSpace(s[q])
  }

  /** The pieces of `s[p..]`, the current piece having started at `p` and the
      search having reached `q`; each separator is a maximal white-space run. */
  function SplitFrom(s: string, p: nat, q: nat): (r: seq<string>)
    requires p <= q <= |s|
    ensures |r| >= 1
    decreases |s| - q
  {
    if q == |s| then [s[p..]]
    else if SplitsAt(s, q) then
      var e := SpaceRunEnd(s, q);
      [s[p..q]] + SplitFrom(s, e, e)
    else SplitFrom(s, p, q + 1)
  }

  /** `s.split(/(?<=[.!?])\s+/)` */
  function Split(s: string): (r: seq<string>)
    ensures |r| >= 1
  {
    SplitFrom(s, 0, 0)
  }

  /** `xs.join(sep)` */
  function Join(xs: seq<string>, sep: string): string
  {
    if |xs| == 0 then "" else if |xs| == 1 then xs[0] else xs[0] + sep + Join(xs[1..], sep)
  }

  // ----- capitalizeFirstLetter (App.js:44-64) -----

  /** The callback of App.js:52-55 applied to every sentence. */
  function ProcessSentences(sentences: seq<string>): (r: seq<string>)
    ensures |r| == |sentences|
    ensures forall k :: 0 <= k < |r| ==> r[k] == CapitalizeSentence(RemoveStartingWords(sentences[k]))
  {
    seq(|sentences|, k requires 0 <= k < |sentences| => CapitalizeSentence(RemoveStartingWords(sentences[k])))
  }

  function CapitalizeFirstLetter(text: string): string
  {
    UpperUnits(Join(ProcessSentences(Split(LowerString(text))), " "))
  }
}
