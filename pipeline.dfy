/** The stages of `replaceText` (App.js:66-90) as functions of the text they
    receive; `Normalize` is their composition in source order. */
module Pipeline {
  import opened Scan
  import opened Rules
  import opened Capitalize

  /** `result` after the first `n` iterations of the number-word loop (App.js:70-73). */
  function NumberWordsUpTo(s: string, n: nat): string
    requires n <= |NumberWords|
  {
    if n == 0 then s
    else ReplaceAll(WordMatcher(NumberWords[n - 1].0, NumberWords[n - 1].1), NumberWordsUpTo(s, n - 1))
  }

  /** `result` after the first `n` iterations of the unit loop (App.js:76-78). */
  function UnitsUpTo(s: string, n: nat): string
    requires n <= |UnitConversions|
  {
    if n == 0 then s
    else
      UnitConversionsWellFormed();
      ReplaceAll(UnitMatcher(UnitConversions[n - 1]), UnitsUpTo(s, n - 1))
  }

  /** App.js:79-82. */
  function Punctuate(s: string): string
  {
    ReplaceAll(DropDollarStar, ReplaceAll(DropDollarHash, ReplaceAll(BangToPeriod, ReplaceAll(PunctToComma, s))))
  }

  /** App.js:83-84. */
  function QuoteUnits(s: string): string
  {
    UnitConversionsWellFormed();
    ReplaceAll(UnitMatcher(QuoteFeet), ReplaceAll(UnitMatcher(QuoteInches), s))
  }

  /** The text lines 67-78 hand to line 79. */
  function BeforePunctuate(input: string): string
  {
    UnitsUpTo(NumberWordsUpTo(ReplaceAll(Ampersand, input), |NumberWords|), |UnitConversions|)
  }

  /** What `replaceText` hands to `capitalizeFirstLetter` (App.js:67-84). */
  function Rewrite(input: string): string
  {
    QuoteUnits(Punctuate(BeforePunctuate(input)))
  }

  /** The value `replaceText` returns. */
  function Normalize(input: string): string
  {
    CapitalizeFirstLetter(Rewrite(input))
  }

  /** The warning condition of `handleProcess` (App.js:101). */
  predicate ExceedsLimit(processed: string)
  {
    |processed| > 550
  }
}
