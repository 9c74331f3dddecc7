/** The constant tables of App.js and a hand-written matcher for each kind of
    pattern that `replaceText` uses. */
module Rules {
  import opened Chars
  import opened Scan

  // ----- number words (`numberWordsToNumbers`) -----

  /** The table in the order `Object.entries` yields it (insertion order). */
  const NumberWords: seq<(string, string)> := [
    ("one", "1"), ("two", "2"), ("three", "3"), ("four", "4"), ("five", "5"),
    ("six", "6"), ("seven", "7"), ("eight", "8"), ("nine", "9"), ("ten", "10")
  ]

  predicate AllLetters(w: string) { forall k :: 0 <= k < |w| ==> IsLetter(w[k]) }
  predicate AllDigits(d: string) { forall k :: 0 <= k < |d| ==> IsDigit(d[k]) }

  /** Every word is a non-empty run of letters and every number a non-empty run of digits. */
  predicate WellFormedWord(e: (string, string))
  {
    e.0 != [] && AllLetters(e.0) && e.1 != [] && AllDigits(e.1)
  }

  lemma NumberWordsWellFormed()
    ensures forall n :: 0 <= n < |NumberWords| ==> WellFormedWord(NumberWords[n])
  {
  }

  /** `\b<w>\b` with the flag `i`: a case-insensitive occurrence of `w` at `i`
      that is neither preceded nor followed by a word character. */
  predicate WholeWordAt(s: string, i: nat, w: string)
  {
    CiLitAt(s, i, w) && !WordAt(s, i - 1) && !WordAt(s, i + |w|)
  }

  function WordHit(w: string, num: string, s: string, i: nat): (r: Option<Hit>)
    ensures r.Some? <==> WholeWordAt(s, i, w)
    ensures r.Some? ==> r.value == Hit(|w|, num)
  {
    if WholeWordAt(s, i, w) then Some(Hit(|w|, num)) else None
  }

  /** `new RegExp("\\b" + w + "\\b", "gi")` replaced by `num` (App.js:71-72). */
  function WordMatcher(w: string, num: string): Matcher
  {
    (s: string, i: nat) => WordHit(w, num, s, i)
  }

  // ----- unit conversions (`unitConversions`) -----

  /** The pattern `(\d+)\s*<w1>\s*<w2>...(?:<optional>)?`, with the further
      alternative `|<bare>` when `bare` is not empty, matched case-insensitively
      and replaced by `$1<abbrev>` (an unmatched `$1` is the empty string). */
  datatype UnitRule = UnitRule(words: seq<string>, optional: string, bare: string, abbrev: string)

  /** The list at App.js:22-35, in order. */
  const UnitConversions: seq<UnitRule> := [
    UnitRule(["width"], "", "", " W"),
    UnitRule(["height"], "", "", " H"),
    UnitRule(["depth"], "", "", " D"),
    UnitRule(["degree"], "", "", "\U{00B0}"),
    UnitRule(["*"], "", "", " x"),
    UnitRule(["gallons", "per", "minute"], "", "", " GPM"),
    UnitRule(["gallon", "per", "minute"], "", "", " GPM"),
    UnitRule(["length"], "", "", " L"),
    UnitRule(["-inch"], "es", "", " in."),
    UnitRule(["inch"], "es", "", " in."),
    UnitRule(["foot"], "", "feet", " ft."),
    UnitRule(["-feet"], "es", "", " in.")
  ]

  /** `/(\d+)\s*["]/g` replaced by `"$1 in."` (App.js:83). */
  const QuoteInches := UnitRule(["\""], "", "", " in.")

  /** `/(\d+)\s*[']/g` replaced by `"$1 ft."` (App.js:84). */
  const QuoteFeet := UnitRule(["'"], "", "", " ft.")

  /** At least one literal, none empty and none starting with white space, so
      the greedy `\s*` never has to give characters back. */
  predicate WellFormedRule(r: UnitRule)
  {
    r.words != [] && forall k :: 0 <= k < |r.words| ==> r.words[k] != [] && !IsSpace(r.words[k][0]) && !IsDigit(r.words[k][0])
  }

  lemma UnitConversionsWellFormed()
    ensures forall n :: 0 <= n < |UnitConversions| ==> WellFormedRule(UnitConversions[n])
    ensures WellFormedRule(QuoteInches) && WellFormedRule(QuoteFeet)
  {
  }

  /** End of `\s*<w1>\s*<w2>...` from `j`, if it matches there. */
  function MatchWords(s: string, j: nat, words: seq<string>): (r: Option<nat>)
    requires j <= |s|
    ensures r.Some? ==> j <= r.value <= |s|
    ensures r.Some? && words != [] ==> j + |words[0]| <= r.value
    decreases |words|
  {
    if words == [] then Some(j)
    else
      var k := SpaceRunEnd(s, j);
      if CiLitAt(s, k, words[0]) then MatchWords(s, k + |words[0]|, words[1..]) else None
  }

  /** End of the first alternative `(\d+)\s*<words>(?:<optional>)?` from `i`. */
  function AnchoredEnd(r: UnitRule, s: string, i: nat): (e: Option<nat>)
    requires i <= |s|
    ensures e.Some? ==> i < |s| && IsDigit(s[i]) && DigitRunEnd(s, i) <= e.value <= |s|
    ensures e.Some? && r.words != [] ==> DigitRunEnd(s, i) + |r.words[0]| <= e.value
  {
    if i < |s| && IsDigit(s[i]) then
      match MatchWords(s, DigitRunEnd(s, i), r.words)
      case Some(e) => Some(if CiLitAt(s, e, r.optional) then e + |r.optional| else e)
      case None => None
    else None
  }

  /** The rule tried at `i`: the first alternative keeps the digit run and puts
      the abbreviation in place of the white space and the unit; the bare
      alternative is replaced by the abbreviation alone. */
  function UnitHit(r: UnitRule, s: string, i: nat): (h: Option<Hit>)
    requires WellFormedRule(r)
    ensures h.Some? ==> 0 < h.value.len <= |s| - i
    ensures h.Some? ==>
      || (IsDigit(s[i]) && h.value.text == s[i..DigitRunEnd(s, i)] + r.abbrev
          && DigitRunEnd(s, i) - i < h.value.len)
      || (r.bare != [] && CiLitAt(s, i, r.bare) && h.value == Hit(|r.bare|, r.abbrev))
    ensures i < |s| && r.bare != [] && CiLitAt(s, i, r.bare) ==> h.Some?
    ensures h.Some? <==> i <= |s| && (AnchoredEnd(r, s, i).Some? || (r.bare != [] && CiLitAt(s, i, r.bare)))
    ensures i <= |s| && AnchoredEnd(r, s, i).Some? ==>
      h.Some? && i + h.value.len == AnchoredEnd(r, s, i).value && h.value.text == s[i..DigitRunEnd(s, i)] + r.abbrev
  {
    if i > |s| then None
    else
      match AnchoredEnd(r, s, i)
      case Some(e) => Some(Hit(e - i, s[i..DigitRunEnd(s, i)] + r.abbrev))
      case None =>
        if r.bare != [] && CiLitAt(s, i, r.bare) then Some(Hit(|r.bare|, r.abbrev)) else None
  }

  function UnitMatcher(r: UnitRule): Matcher
    requires WellFormedRule(r)
  {
    (s: string, i: nat) => UnitHit(r, s, i)
  }

  // ----- character classes -----

  function ClassHit(cls: string, rep: string, s: string, i: nat): (h: Option<Hit>)
    ensures h.Some? <==> i < |s| && s[i] in cls
    ensures h.Some? ==> h.value == Hit(1, rep)
  {
    if i < |s| && s[i] in cls then Some(Hit(1, rep)) else None
  }

  /** A one-character class `[...]` (or a single literal) replaced by `rep`. */
  function ClassMatcher(cls: string, rep: string): Matcher
  {
    (s: string, i: nat) => ClassHit(cls, rep, s, i)
  }

  /** `/&/g` replaced by `"and"` (App.js:67). */
  const Ampersand := ClassMatcher("&", "and")
  /** `/[.!?]/g` replaced by `","` (App.js:79). */
  const PunctToComma := ClassMatcher(".!?", ",")
  /** `/[!?]/g` replaced by `"."` (App.js:80). */
  const BangToPeriod := ClassMatcher("!?", ".")
  /** `/[$#]/g` removed (App.js:81). */
  const DropDollarHash := ClassMatcher("$#", "")
  /** `/[$*]/g` removed (App.js:82). */
  const DropDollarStar := ClassMatcher("$*", "")
}
