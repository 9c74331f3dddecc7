# Text normaliser of the content checker, in Dafny

The content checker (`src/App.js`) is a small React form. Its one piece of
logic is `replaceText`, which rewrites a pasted product description in a
fixed order:

1. `&` becomes `and`.
2. The whole words one to ten, matched case-insensitively, become digits.
3. A table of digit-anchored unit abbreviations is applied in order: `10 width` becomes `10 W`, `3 inches` becomes `3 in.`, and so on.
4. `.`, `!` and `?` become commas, and `$`, `#` and `*` are deleted.
5. A number followed by `"` or `'` becomes `in.` or `ft.`.
6. `capitalizeFirstLetter` runs last. It lower-cases the text and splits it into sentences after `.`, `!` or `?` followed by white space. In each sentence it drops one leading filler word (`removeStartingWords`) and upper-cases the sentence-initial word characters. It then joins the sentences with single spaces and upper-cases the unit tokens.

The project models that normaliser and proves what it guarantees about its output.

Modules, in dependency order:

- `Chars` (`chars.dfy`): character classes as the JavaScript regular expressions see them, ASCII case mapping, and case-insensitive literal matching.
- `Scan` (`scan.dfy`): `String.prototype.replace` with a global pattern. It is one left-to-right, leftmost-first, non-overlapping scan, parameterised by a hand-written matcher for each regular expression of the source. It also holds generic lemmas about stretches that are copied, characters kept out, and case-only replacements.
- `Rules` (`rules.dfy`): the number-word and unit tables, and one matcher per pattern of `replaceText`.
- `Capitalize` (`capitalize.dfy`): `removeStartingWords` and `capitalizeFirstLetter` as pure functions.
- `Pipeline` (`pipeline.dfy`): the stages of `replaceText` as functions, composed in source order into `Normalize`.
- `ContentChecker` (`content_checker.dfy`): `replaceText` itself, as an imperative method. It reassigns `result` at each step; the two loops over the tables are the methods `ReplaceNumberWords` and `ConvertUnits`. It is proved equal to `Normalize`, and the output properties below are part of its contract.
- Proofs:
  - `NumberWordProofs` (`words.dfy`): the number-word loop.
  - `UnitProofs` (`units.dfy`): the unit loop and the `foot|feet` rule.
  - `Punctuation` (`punctuation.dfy`): the one-character rewrites.
  - `Periods` (`periods.dfy`): where periods can be.
  - `Absence` (`absence.dfy`): characters that stay removed.
  - `SentenceProofs` (`sentences.dfy`): split and join.
  - `SentenceCaseProofs` (`sentence_case.dfy`): the sentence-opening pass of App.js:54.
  - `UnitCaseProofs` (`unit_case.dfy`): the final upper-casing pass.
  - `CapitalizeFirstProofs` (`capitalize_first.dfy`): `capitalizeFirstLetter` as a whole.

Some members are definitions whose own contracts, if any, only give bounds or repeat their bodies. Each is what the
lemmas in the table below talk about:

- The tables `Rules.NumberWords` (App.js:9-20), `Rules.UnitConversions` (App.js:22-35), `Capitalize.StartingWords` (App.js:38) and `Capitalize.UnitTokens` (App.js:46) are constants in source order. `Rules.NumberWordsWellFormed`, `Rules.UnitConversionsWellFormed` and `UnitCaseProofs.TokensOk` state their shape.
- `Scan.ReplaceFrom` and `Scan.ReplaceAll` are the global replace, and `Scan.Step` unfolds one step of it. `Scan.CopiedStretch` and `Scan.ScanShrinks` state how the scan proceeds.
- `Rules.WordHit` and `Rules.ClassHit` are the patterns `\bword\b` and `[...]` written as matchers. What their passes do is stated by `NumberWordProofs.WordPassEliminates`, `NumberWordProofs.FirstWordReplaced` and `Punctuation.ClassReplaceIsMap`.
- `Rules.UnitHit` is the matcher of one unit rule: the digit-anchored alternative first, then the bare one. `UnitProofs.AnchoredUnitHit` states when a rule matches and what it puts in.
- `Capitalize.SentenceStartHit` is the matcher of `/(^\s*\w|[.!?]\s*\w)/g`. `SentenceCaseProofs.CapitalizeSentenceIsCapitalized` states what its pass does.
- Further definitions that model specific source lines:
  - `Rules.WordMatcher` is the pattern of App.js:71 for one table entry. `Pipeline.NumberWordsUpTo` is the first `n` passes of the loop of App.js:70-73. `ContentChecker.ReplaceNumberWords` keeps its loop invariant in terms of it.
  - `Rules.UnitMatcher` is the pattern of one rule of App.js:22-34. `Rules.MatchWords` matches its `\s*`-separated literals. `Rules.AnchoredEnd` is where its digit-anchored alternative ends, including an optional ending such as `(?:es)?`. `Pipeline.UnitsUpTo` is the first `n` passes of the loop of App.js:76-78, and `ContentChecker.ConvertUnits` keeps its loop invariant in terms of it.
  - `Rules.ClassMatcher` is a one-character class pattern. Its instances are `Rules.Ampersand` (App.js:67), `Rules.PunctToComma` (App.js:79), `Rules.BangToPeriod` (App.js:80), `Rules.DropDollarHash` (App.js:81) and `Rules.DropDollarStar` (App.js:82). `Pipeline.Punctuate` composes lines 79-82.
  - `Rules.QuoteInches` and `Rules.QuoteFeet` are the patterns of App.js:83-84, and `Pipeline.QuoteUnits` composes the two lines.
  - `Capitalize.FillerFrom` tries the alternatives of App.js:39 in order, for `Capitalize.FillerEnd`.
  - `Capitalize.SplitFrom` is the scan behind `split` at App.js:49.
  - `Capitalize.TokenEnd` is one alternative of App.js:61, with the unescaped `.`.
- `Capitalize.Split`, `Capitalize.Join` and `Capitalize.ProcessSentences` are `split`, `join` and `map`. The contracts of `Split` and `ProcessSentences` give only the number of pieces and the callback applied to each. `SentenceProofs.SplitJoinCollapses` states what splitting and joining do together.
- `Capitalize.CapitalizeFirstLetter`, `Pipeline.BeforePunctuate`, `Pipeline.Rewrite` and `Pipeline.Normalize` compose the stages in source order. `CapitalizeFirstProofs.CapitalizeFirstLetterIs`, `Periods.NormalizeTagged`, `Absence.NormalizeClean` and `ContentChecker.ReplaceText` state what the compositions give.

Consequences of the code as written, which the model keeps and some lemmas prove:

- App.js:49 lower-cases the text, and the unit pass of App.js:60-63 is case-sensitive. An abbreviation that the unit table wrote in upper case therefore stays lower-case: `10 width` becomes `10 W`, then `10 w` at line 49, and the unit pass never starts a token at a lower-case letter other than `i` or `f` (`UnitCaseProofs.NoTokenAt`). `UnitCaseProofs.LowerUnitLetterStays` works the last pass on `10 w`; the whole pipeline on `10 width` is not worked out.
- In `\b(...|in.|ft.)\b` the `.` is unescaped, so it matches any character other than a line terminator, and `\b` must follow it. A real `in.` at the end of the text, or followed by any character that is not a word character, is never upper-cased (`UnitCaseProofs.InDotStays`). A whole-word `in` followed by a space, or by any other character that is neither a word character nor a line terminator, and then by a word character, is upper-cased together with that character (`UnitCaseProofs.InThenWordUpcased`; `UnitCaseProofs.InFollowedBySpace` works `in x`).
- App.js:80 comes after App.js:79 has already turned every `!` and `?` into a comma, so line 80 never changes anything (`Punctuation.BangToPeriodIdle`).
- In `(\d+)\s*foot|feet` the alternation binds loosest. A bare `feet` is therefore replaced wherever it occurs, by ` ft.` (the unmatched `$1` is empty), so `10 feet` becomes `10  ft.` with two spaces. After this rule no `feet` is left in any case, so the `-feet` rule after it can never fire (`UnitProofs.LastUnitRuleIdle`).

## Model

| member | source | states |
|---|---|---|
| ContentChecker.ReplaceText | src/App.js:66-90 | the rewrites run in source order on the previous result, and the method returns exactly `Normalize(inputText)`; the result contains none of `& ! ? $ # *` and every `.` in it comes right after `in` or `ft` |
| ContentChecker.ReplaceNumberWords | src/App.js:70-73 | the loop replaces the number words one to ten in table order, each as a whole word in the previous result, and returns the text after all ten passes |
| ContentChecker.ConvertUnits | src/App.js:76-78 | the loop applies the twelve unit rules in table order, each to the previous result, and returns the text after all twelve passes |
| NumberWordProofs.WordPassEliminates | src/App.js:71-72 | after one number word is replaced, no whole-word occurrence of it is left in any case |
| NumberWordProofs.WordPassPreserves | src/App.js:71-72 | replacing one number word creates no new whole-word occurrence of any word of letters, since the inserted digits are word characters |
| NumberWordProofs.NumberWordsGone | src/App.js:70-73 | after the loop, none of one to ten is left as a whole word in any case |
| NumberWordProofs.FirstWordReplaced | src/App.js:71-72 | the leftmost whole-word occurrence becomes its digits, and the text before it is unchanged |
| NumberWordProofs.TenantUntouched | src/App.js:71 | `\b` keeps the `ten` of `tenant` from being replaced |
| UnitProofs.AnchoredUnitHit | src/App.js:22-34 | a rule with one unit literal and no bare alternative matches at a position if and only if a digit starts there and the literal, in any case, follows the maximal white-space run after the digit run; the replacement is the digits followed by the abbreviation, and the optional ending is consumed exactly when present |
| UnitProofs.FootAnchored | src/App.js:33 | a digit run, white space and `foot` in any case form a match of the `foot\|feet` rule that ends after `foot` and is replaced by the digits followed by ` ft.` |
| UnitProofs.BareFeetReplaced | src/App.js:33 | `feet` in any case, anywhere, is a match of four characters replaced by ` ft.` |
| UnitProofs.FootText | src/App.js:33 | every replacement made by the `foot\|feet` rule is digits followed by ` ft.` |
| UnitProofs.NoFeetAfterFootRule | src/App.js:33 | after the `foot\|feet` rule no `feet` is left in any case |
| UnitProofs.DashFeetIdle | src/App.js:34 | on text without `feet` the `-feet` rule changes nothing |
| UnitProofs.LastUnitRuleIdle | src/App.js:76-78 | running all twelve unit rules gives the same text as running the first eleven |
| Punctuation.ClassReplaceIsMap | src/App.js:79-82 | a global character-class replace is the character-by-character map |
| Punctuation.AmpersandReplaced | src/App.js:67 | every `&` becomes `and`, and no `&` is left |
| Punctuation.CommaOneForOne | src/App.js:79 | each `.`, `!` and `?` becomes one `,` and every other character stays, so the length is kept |
| Punctuation.BangToPeriodIdle | src/App.js:80 | line 80, applied to the output of line 79, is the identity |
| Punctuation.PunctuateDeletesOnly | src/App.js:79-82 | lines 79-82 are line 79's map followed by deleting `$`, `#` and `*`; none of `. ! ? $ # *` is left, and every other character except `,` keeps its number of occurrences |
| Periods.QuoteRuleHit | src/App.js:83-84 | a quote rule matches at a position if and only if a digit starts there and the quote mark follows the white-space run after the digit run; the digits stay, and the white space and the quote mark become ` in.` or ` ft.` |
| Periods.QuoteHits | src/App.js:83-84 | every replacement of a quote rule keeps each `.` right after `in` or `ft`, and every match ends in a non-letter |
| Periods.QuoteUnitsTagged | src/App.js:83-84 | on text without periods, lines 83-84 leave every `.` right after `in` or `ft` |
| Periods.RewriteTagged | src/App.js:79-84 | in the text handed to `capitalizeFirstLetter`, every `.` comes right after `in` or `ft` |
| Periods.RemoveStartingWordsTagged | src/App.js:37-42 | removing the filler prefix keeps every `.` right after its `in` or `ft` |
| Periods.CapitalizeTagged | src/App.js:44-64 | `capitalizeFirstLetter` keeps every `.` right after its `in` or `ft` (in some case) |
| Periods.NormalizeTagged | src/App.js:66-90 | every `.` of the returned value comes right after `in` or `ft` in some case |
| Absence.UnitPassKeepsOut | src/App.js:76-78 | a unit rule adds no character that is neither a digit nor in its abbreviation |
| Absence.NumberWordsUpToKeepsOut | src/App.js:70-73 | the number-word loop adds no character other than digits |
| Absence.QuoteUnitsKeepsOut | src/App.js:83-84 | lines 83-84 add only digits and the characters of ` in.` and ` ft.` |
| Absence.AmpersandStaysOut | src/App.js:67-78 | no `&` is present after the unit loop |
| Absence.RewriteClean | src/App.js:67-84 | none of `& ! ? $ # *` reaches `capitalizeFirstLetter` |
| Absence.CapitalizeKeepsOut | src/App.js:44-64 | `capitalizeFirstLetter` adds no character other than letters and the joining space |
| Absence.NormalizeClean | src/App.js:66-90 | the returned value contains none of `& ! ? $ # *` |
| Chars.LowerString | src/App.js:49 | lower-casing keeps the length and lower-cases every letter |
| Chars.UpperString | src/App.js:54 | upper-casing keeps the length and upper-cases every letter |
| Capitalize.FillerEnd | src/App.js:38-39 | the anchored filler pattern matches only when one of the words in the list, in any case, follows the leading white space and is itself followed by white space; it then ends after the whole white-space run; no match means that no word of the list is followed by white space there |
| Capitalize.UpperFirstWord | src/App.js:41 | when a word character follows the leading white space, it is upper-cased and every other character stays; otherwise the text is unchanged |
| Capitalize.StripFiller | src/App.js:41 | when the filler pattern matches, everything up to the end of its match is cut off; otherwise the input is unchanged |
| Capitalize.RemoveStartingWords | src/App.js:37-42 | the result is the text after the filler match, or the whole text when there is none, with its first non-blank word character upper-cased; it is no longer than the input, and strictly shorter when a filler matches |
| Capitalize.CapitalizeSentence | src/App.js:54 | the line-54 pass changes only the case of letters |
| SentenceCaseProofs.CapitalizeSentenceIsCapitalized | src/App.js:54 | the line-54 pass upper-cases exactly the word characters that open a sentence (only white space between them and the start of the text or a `.`, `!` or `?`) and leaves every other character as it is |
| SentenceCaseProofs.CapitalizedOpening | src/App.js:54 | the first word character after the leading white space is upper-cased, and that white space stays |
| SentenceCaseProofs.CapitalizedAfterEnd | src/App.js:54 | the first word character after a `.`, `!` or `?` and white space is upper-cased, and the punctuation and white space stay |
| Capitalize.TokensEnd | src/App.js:60-63 | a match is the match of one of the alternatives, and it is followed by `\b` |
| UnitCaseProofs.TokensEndFirst | src/App.js:60-63 | the first alternative that matches and is followed by `\b` is the one taken |
| Capitalize.UnitCaseHit | src/App.js:60-63 | a unit-token match lies between two word boundaries and is replaced by its own upper-cased text |
| Capitalize.UpperUnits | src/App.js:60-63 | the unit pass changes only the case of letters |
| UnitCaseProofs.UpperUnitsIsUnitsUpcased | src/App.js:60-63 | the unit pass upper-cases exactly the characters inside a unit-token match and leaves every other character as it is |
| UnitCaseProofs.MatchedTokenUpcased | src/App.js:60-63 | a unit token that the pattern finds after a word boundary ends up upper-cased in the output |
| UnitCaseProofs.InDotStays | src/App.js:60-63 | `in.` followed by the end of the text or by a character that is not a word character keeps its case, because no `\b` follows the `.` |
| UnitCaseProofs.NoTokenAt | src/App.js:60-63 | no unit token starts at a character that is not an upper-case letter, `i` or `f`, because the pattern is case-sensitive |
| UnitCaseProofs.LowerUnitLetterStays | src/App.js:49-63 | `10 w` is not turned back into `10 W` |
| UnitCaseProofs.InchesAtEndStay | src/App.js:60-63 | `5 in.` at the end of the text stays as it is |
| UnitCaseProofs.InFollowedBySpace | src/App.js:60-63 | `in x` becomes `IN x` |
| UnitCaseProofs.InThenWordUpcased | src/App.js:60-63 | a whole-word `in`, then a character that is neither a word character nor a line terminator, then a word character: the `in` and that character are upper-cased, because the unescaped `.` takes the character and `\b` follows it |
| SentenceProofs.SplitJoinCollapses | src/App.js:49-57 | splitting after `.`, `!` or `?` on white space and joining with `" "` replaces each white-space run after a sentence end by exactly one space and changes nothing else |
| SentenceProofs.NoSplitSingle | src/App.js:49 | text with no sentence end followed by white space is a single sentence |
| CapitalizeFirstProofs.CapitalizeFirstLetterIs | src/App.js:44-64 | the result is the lower-cased text split into sentences, each with its filler word cut off and its sentence openings upper-cased, joined with single spaces, and with every unit token upper-cased |
| CapitalizeFirstProofs.CapitalizeFirstLetterShorter | src/App.js:44-64 | the result is never longer than the input |
| CapitalizeFirstProofs.FirstSentenceOpensUpper | src/App.js:44-64 | when the first sentence, after its filler word is cut off, has a word character after its leading white space, the result opens with that same white space followed by that character upper-cased |
| Rules.NumberWordsWellFormed | src/App.js:9-20 | every entry of the number-word table is a non-empty word of letters replaced by a non-empty string of digits |
| Rules.UnitConversionsWellFormed | src/App.js:22-35 | every unit rule, and both quote rules, has at least one literal, and no literal is empty or starts with white space or a digit |
| UnitCaseProofs.TokensOk | src/App.js:46 | every unit token is a non-empty literal of letters, at most three long, or two letters followed by the unescaped `.` |
| Scan.CopiedStretch | src/App.js:67-84 | a stretch where the pattern matches nowhere is copied unchanged |
| Scan.ScanShrinks | src/App.js:54-63 | a global replace whose replacements are never longer than what they replace does not lengthen the text |

## Left out

- The React component is not modelled: the `useState` state, `handleChange`, the JSX and the style sheet import (App.js:92-95, 121-143). It is user-interface glue.
- `handleCopyToClipboard` (App.js:110-119) is not modelled. It is an asynchronous browser clipboard call with `alert` and console output.
- The 550-character warning of `handleProcess` (App.js:97-108) is kept only as the predicate `Pipeline.ExceedsLimit`. Setting the state is UI. `Pipeline.ExceedsLimit` counts code points, whereas JavaScript's `.length` counts UTF-16 code units, so text with characters outside the Basic Multilingual Plane is counted shorter than App.js:101 counts it.
- Strings are sequences of code points, not of UTF-16 code units. The one pattern where that changes a match is the unescaped `.` of `in.` and `ft.` at App.js:61, which has no `u` flag. In JavaScript it takes one code unit, so on `in` followed by U+1F600 and `a` it takes only the high surrogate, no `\b` follows, and the text stays. `Capitalize.TokenEnd` takes the whole character, so the model matches the `in` and the emoji, and upper-cases the `in`.
- Case mapping and `\w` are ASCII only. `toLowerCase` and `toUpperCase` of non-ASCII letters, such as `É`, are not modelled, and non-ASCII characters, such as `°`, are inert.
- `\s` is the fixed set of ECMAScript white-space and line-terminator code points.
- No general regular-expression engine is modelled. Each pattern of App.js has its own matcher, written to follow the pattern's semantics. That each matcher agrees with the JavaScript engine rests on reading it; it is not proved.
- Inside `replaceText`, strings are values, and the rebinding of `result` is a local variable of `ContentChecker.ReplaceText`.
- UnitProofs.AnchoredUnitHit: stated only for rules with one unit literal and no bare alternative. The one-literal `foot|feet` rule has its digit-anchored branch in `UnitProofs.FootAnchored` and its bare branch in `UnitProofs.BareFeetReplaced`, but no if-and-only-if. For the two `gallons? per minute` rules the model states only what `Rules.UnitHit` says: the rule matches exactly where its digit-anchored alternative (`Rules.AnchoredEnd`) does, the digit run is kept and followed by the abbreviation, and more than the digit run is consumed. No lemma spells out the three-literal match in terms of the white-space runs.
