/** `replaceText` (App.js:66-90): the rewrites applied one after another to
    `result`, with the two loops over the tables. */
module ContentChecker {
  import opened Scan
  import opened Rules
  import opened Pipeline
  import opened Capitalize
  import Periods
  import Absence

  /** The loop of App.js:70-73: each number word, in table order, replaced as a whole word. */
  method ReplaceNumberWords(text: string) returns (result: string)
    ensures result == NumberWordsUpTo(text, |NumberWords|)
  {
    result := text;
    for k := 0 to |NumberWords|
      invariant result == NumberWordsUpTo(text, k)
    {
      var (word, number) := NumberWords[k];
      result := ReplaceAll(WordMatcher(word, number), result);
    }
  }

  /** The loop of App.js:76-78: each unit rule, in table order, applied to the previous result. */
  method ConvertUnits(text: string) returns (result: string)
    ensures result == UnitsUpTo(text, |UnitConversions|)
  {
    UnitConversionsWellFormed();
    result := text;
    for k := 0 to |UnitConversions|
      invariant result == UnitsUpTo(text, k)
    {
      result := ReplaceAll(UnitMatcher(UnitConversions[k]), result);
    }
  }

  method ReplaceText(inputText: string) returns (result: string)
    ensures result == Normalize(inputText)
    ensures forall c :: c in "&!?$#*" ==> c !in result
    ensures Periods.Tagged(result)
  {
    result := ReplaceAll(Ampersand, inputText);
    result := ReplaceNumberWords(result);
    result := ConvertUnits(result);

    ghost var afterUnits := result;
    result := ReplaceAll(PunctToComma, result);
    result := ReplaceAll(BangToPeriod, result);
    result := ReplaceAll(DropDollarHash, result);
    result := ReplaceAll(DropDollarStar, result);
    assert result == Punctuate(afterUnits);
    UnitConversionsWellFormed();
    result := ReplaceAll(UnitMatcher(QuoteInches), result);
    result := ReplaceAll(UnitMatcher(QuoteFeet), result);
    assert result == Rewrite(inputText);
    result := CapitalizeFirstLetter(result);

    Absence.NormalizeClean(inputText);
    Periods.NormalizeTagged(inputText);
  }
}
