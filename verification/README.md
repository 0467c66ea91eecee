# Numerology calculator — a Dafny model

This project models the logic of a small numerology web application. The user
types a first, optional middle and last name and a birth date into a two-step
form. The page composes a display name and an `M/D/Y` date string from that
input. It shows a loading state until a timer fires, and then shows the results
screen. The results screen splits the display name back into three parts for
the numerology grid, and turns the long-form date into a slash date when no
`M/D/Y` string is available. The grid converts letters to digits and computes
five scores:

- Life Path
- Expression
- Soul Urge
- Destiny
- Personal Year

It then flags karmic debt and shows the past and next personal year. A
symbolic panel shows the symbols of four numbers and lets the user toggle one
active symbol.

The model is organised by source file:

| module | models | form |
|---|---|---|
| `JsText` | the JavaScript string and number primitives the code relies on: `split` and `join` on one character, `toString` of non-negative integers, `parseInt`, ASCII `toUpperCase`/`toLowerCase`, `trim` and the `\s` class, `replace` of the first occurrence | functions and lemmas |
| `GridCalculation` | the numerology engine of the grid screen | functions and lemmas (the source is pure) |
| `GridExamples` | worked values of the engine: the grid's default props, and two names on either side of the karmic test | lemmas |
| `ResultsDisplay` | the name split, the date fallback, chart segment ids and colours, the four numbers given to the symbolic panel | functions and lemmas (the source is pure) |
| `SymbolicImagery` | the symbol table, the user's symbols, and the active symbol | functions, plus the class `SymbolPanel` for the `activeSymbol` state |
| `InputForm` | the schema rules, and the `formStep` state moved by Next and Back | predicates, plus the class `Form` |
| `Home` | name composition, the `M/D/Y` string, and the page flow | functions, plus the class `Page` for `calculationState`/`userData` |

Behaviour the model follows as the code does, though a reader might expect
otherwise:

- **One reduction pass.** A score total above 9 is replaced by the sum of its
  decimal digits once; the result is not reduced again. The default name
  "LAURA JULIA COSTAS PEREZ" therefore has Expression 10, from a total of 82
  (`GridExamples.DefaultExpression`). Personal Year adds the full current
  year, so in 2026 its total lies in 2028..2069 and the score in 5..17, often
  above 9 (12/31 gives 2069, whose digits sum to 17). Past and Next Year are
  then simply one less and one more (16 and 18); their wrap within 1..9
  (`GridCalculation.YearWrap`) applies only to scores from 1 to 9.
- **Karmic debt uses reduced values.** The test looks at Life Path, Expression
  and Destiny after that single reduction. A raw total of 13 is therefore never
  flagged: it reduces to 4 (`GridExamples.KarmicIgnoresRawTotals`). A
  reduced 13 needs a total of at least 49
  (`GridCalculation.KarmicNeedsLargeTotal`).
- **Birth dates are read as `M/D/Y`.** The string is split on "/". With fewer
  than three parts the grid uses today's date. The results screen's fallback
  rewrite turns any long date "Month D, Y" into "D/Y", which has only two
  parts, so without a formatted date the grid always uses today's date
  (`ResultsDisplay.LongDateForm`, `ResultsDisplay.LongDateFallsBackToToday`).
  The screen's own default, "January 15, 1985", becomes "15/1985"
  (`ResultsDisplay.DefaultDateFallsBackToToday`).
- **Two clicks on a symbol do not always restore the state.** They do when
  nothing, or that same symbol, was active. When a different symbol was
  active, nothing is active after the two clicks (`SymbolicImagery.ToggleTwice`).
- **The name round trip has exact conditions.** Composing a name and
  splitting it again gives back the parts only when first and middle contain
  no space and, without a middle name, the last name contains none either
  (`Home.SplitComposedName`). In the other direction:
  - A one-word name comes back with a trailing space.
  - A doubled space comes back single.

  (`Home.ComposeSplitName`, `Home.OneWordNameGainsSpace`,
  `Home.DoubleSpaceCollapses`.)

JavaScript numbers appear as `JsNum`, an integer or NaN. NaN arises when
`parseInt` finds no leading digit, and it propagates through `+`. Reading the
clock and parsing JavaScript `Date` objects are inputs, not computations:

- "Today" and the current year are parameters of the grid (`Today`,
  `currentYear`).
- The year, month and day that `new Date(...)` yields are a `JsDate`
  parameter of the page.
- The locale-formatted long date is a string parameter of the page.

## Model

| member | source | states |
|---|---|---|
| `JsText.Plus` | src/components/numerology/GridCalculation.tsx:97 | the sum is a number exactly when both operands are, and then it is their sum |
| `JsText.UpperCase` | src/components/numerology/GridCalculation.tsx:51 | same length, every character upper-cased in place |
| `JsText.LowerCase` | src/components/numerology/ResultsDisplay.tsx:179 | same length, every character lower-cased in place |
| `JsText.Count` | src/components/numerology/ResultsDisplay.tsx:237 | the count is at most the length, and zero exactly when the character is absent |
| `JsText.IndexOf` | src/components/numerology/ResultsDisplay.tsx:179 | -1 exactly when absent; otherwise the position of the first occurrence |
| `JsText.ReplaceFirst` | src/components/numerology/ResultsDisplay.tsx:179 | only the character at the first occurrence changes |
| `JsText.ReplaceFirstCount` | src/components/numerology/ResultsDisplay.tsx:179 | replacing removes exactly one occurrence when there is one |
| `JsText.LowerCaseCount` | src/components/numerology/ResultsDisplay.tsx:179 | lower-casing keeps the number and first position of spaces |
| `JsText.Split` | src/components/numerology/GridCalculation.tsx:68 | one more part than separators, no part holds the separator, and joining the parts gives the string back |
| `JsText.SplitAround` | src/components/numerology/GridCalculation.tsx:68 | splitting around a separator splits each side independently |
| `JsText.SplitJoin` | src/components/numerology/ResultsDisplay.tsx:239-242 | split undoes join when no part contains the separator |
| `JsText.ToDecimal` | src/components/numerology/GridCalculation.tsx:92-96 | a non-empty digit string without a leading zero whose value is the number |
| `JsText.LeadingDigits` | src/components/numerology/GridCalculation.tsx:70-72 | the longest all-digit prefix |
| `JsText.ParseInt` | src/components/numerology/GridCalculation.tsx:70-72 | NaN exactly when the string does not start with a digit, otherwise a non-negative number |
| `JsText.ParseIntToDecimal` | src/components/numerology/GridCalculation.tsx:70-72 | `parseInt` reads back what `toString` writes |
| `JsText.TrimStart` | src/components/numerology/ResultsDisplay.tsx:247 | removes exactly the leading whitespace |
| `JsText.TrimEnd` | src/components/numerology/ResultsDisplay.tsx:247 | removes exactly the trailing whitespace |
| `JsText.Trim` | src/components/numerology/ResultsDisplay.tsx:247 | the result is a contiguous middle part of the string with only whitespace before and after it, and no whitespace at either of its ends |
| `JsText.TrimLeading` | src/components/numerology/ResultsDisplay.tsx:247 | leading whitespace before text with no whitespace at its ends is all that trimming removes |
| `GridCalculation.LetterValueCyclic` | src/components/numerology/GridCalculation.tsx:20-47 | the table gives A..I 1..9, J..R 1..9, S..Z 1..8, everything else 0 |
| `GridCalculation.Values` | src/components/numerology/GridCalculation.tsx:52 | one table value per letter, in order |
| `GridCalculation.CalculateNameValue` | src/components/numerology/GridCalculation.tsx:50-57 | every character upper-cased in order with its value; a value is 0 exactly for a non-letter, never above 9 |
| `GridCalculation.MiddleCalc` | src/components/numerology/GridCalculation.tsx:61 | a breakdown exactly when the middle name is non-empty, with one letter and one number per character |
| `GridCalculation.AllNumbersAreValues` | src/components/numerology/GridCalculation.tsx:109-113 | the concatenated numbers are the values of the concatenated letters |
| `GridCalculation.DigitSumStep` | src/components/numerology/GridCalculation.tsx:99-103 | digit sum of n is n below 10, else the digit sum of n/10 plus the last digit |
| `GridCalculation.DigitSumMod9` | src/components/numerology/GridCalculation.tsx:99-103 | digit summing keeps the residue modulo 9 |
| `GridCalculation.DigitSumBounds` | src/components/numerology/GridCalculation.tsx:99-103 | digit summing never grows a number, shrinks any n of two digits or more, keeps it positive |
| `GridCalculation.Reduce` | src/components/numerology/GridCalculation.tsx:114-121 | a total up to 9 is kept; a larger one becomes smaller, positive, and congruent modulo 9 |
| `GridCalculation.ReduceNum` | src/components/numerology/GridCalculation.tsx:97-104 | the same on numbers that may be NaN, which stays NaN |
| `GridCalculation.ParseBirthDate` | src/components/numerology/GridCalculation.tsx:67-79 | today's date with fewer than two slashes; otherwise the month is the `parseInt` of the whole string |
| `GridCalculation.SplitHeadLeadingDigits` | src/components/numerology/GridCalculation.tsx:68-70 | the first piece of a split on a non-digit has the leading digits of the whole string |
| `GridCalculation.ParseIgnoresExtraParts` | src/components/numerology/GridCalculation.tsx:68-72 | parts after the third do not change the date |
| `GridCalculation.ParseDigitFields` | src/components/numerology/GridCalculation.tsx:68-72 | three digit fields joined by "/" parse to their decimal values |
| `GridCalculation.ParseDecimalDate` | src/components/numerology/GridCalculation.tsx:68-72 | three written numbers joined by "/" parse back to those numbers |
| `GridCalculation.YearDigitSum` | src/components/numerology/GridCalculation.tsx:92-96 | a number exactly when the year is a non-negative number |
| `GridCalculation.LifePath` | src/components/numerology/GridCalculation.tsx:89-105 | a number exactly when month, day and year are numbers and the year is non-negative |
| `GridCalculation.ExpressionTotal` | src/components/numerology/GridCalculation.tsx:108-113 | the sum of the table values of all letters, at most 9 per letter |
| `GridCalculation.SumValuesBound` | src/components/numerology/GridCalculation.tsx:20-47 | no letter is worth more than 9, so a sum is at most 9 per letter |
| `GridCalculation.Filter` | src/components/numerology/GridCalculation.tsx:132-134 | every occurrence of each letter of the set is kept, no letter outside the set, never more than the input |
| `GridCalculation.FilterAppend` | src/components/numerology/GridCalculation.tsx:132-134 | filtering distributes over concatenation, so the kept letters stay in order |
| `GridCalculation.FilterOne` | src/components/numerology/GridCalculation.tsx:132-134 | a single letter is kept exactly when it is in the set |
| `GridCalculation.FilterNone` | src/components/numerology/GridCalculation.tsx:132-134 | the filter is empty exactly when no letter is in the set |
| `GridCalculation.SoulUrgeTotal` | src/components/numerology/GridCalculation.tsx:125-137 | the vowel total is 0 exactly when the name has no vowel |
| `GridCalculation.KeptLettersCount` | src/components/numerology/GridCalculation.tsx:125-179 | vowels and consonants are each worth at least 1, so their total is 0 only when there are none |
| `GridCalculation.DestinyTotal` | src/components/numerology/GridCalculation.tsx:146-180 | the consonant total is 0 exactly when the name has none of the 21 consonants |
| `GridCalculation.PersonalYear` | src/components/numerology/GridCalculation.tsx:189-200 | a number exactly when month and day are numbers |
| `GridCalculation.Calculate` | src/components/numerology/GridCalculation.tsx:202-206 | each of the five scores is its total reduced once, on the parsed date |
| `GridCalculation.LetterClasses` | src/components/numerology/GridCalculation.tsx:147-169 | vowels and the 21 consonants partition A..Z; other characters have value 0 |
| `GridCalculation.FilterPartition` | src/components/numerology/GridCalculation.tsx:175-178 | vowel values plus consonant values equal all values |
| `GridCalculation.SoulUrgePlusDestiny` | src/components/numerology/GridCalculation.tsx:108-186 | unreduced Soul Urge plus unreduced Destiny equals unreduced Expression |
| `GridCalculation.LifePathCongruent` | src/components/numerology/GridCalculation.tsx:89-105 | Life Path is a number congruent to month + day + year modulo 9 |
| `GridCalculation.PersonalYearCongruent` | src/components/numerology/GridCalculation.tsx:189-200 | Personal Year is congruent to month + day + current year modulo 9 |
| `GridCalculation.KarmicNeedsLargeTotal` | src/components/numerology/GridCalculation.tsx:391-393 | a reduced value is karmic only when its total was at least 49 |
| `GridCalculation.IsKarmic` | src/components/numerology/GridCalculation.tsx:391-393 | a karmic value is a number from 13..19 |
| `GridCalculation.KarmicDebt` | src/components/numerology/GridCalculation.tsx:391-395 | the flag needs Life Path, Expression or Destiny to be at least 13 |
| `GridCalculation.KarmicIgnoresSoulUrgeAndPersonalYear` | src/components/numerology/GridCalculation.tsx:391-395 | changing Soul Urge or Personal Year never changes the karmic flag |
| `GridCalculation.PastYear` | src/components/numerology/GridCalculation.tsx:404-406 | always a number: one less for every number except 1 (so 16 for 17), and 9 for 1 and for NaN |
| `GridCalculation.NextYear` | src/components/numerology/GridCalculation.tsx:413-415 | a number exactly when the personal year is; one more for every number except 9 (so 18 for 17), and 1 after 9 |
| `GridCalculation.YearWrap` | src/components/numerology/GridCalculation.tsx:404-416 | past and next year stay in 1..9 and undo each other there |
| `GridExamples.DefaultLifePath` | src/components/numerology/GridCalculation.tsx:17 | the default date "02/09/1991" gives Life Path 2 + 9 + 20 = 31, reduced to 4 |
| `GridExamples.NewYear2000LifePath` | src/components/numerology/GridCalculation.tsx:89-105 | "1/1/2000" gives Life Path 4 |
| `GridExamples.DefaultExpression` | src/components/numerology/GridCalculation.tsx:14-16 | the default name totals 82 and reduces to 10, which is above 9 |
| `GridExamples.ShortNameDestiny` | src/components/numerology/GridCalculation.tsx:146-186 | the consonant D alone gives Destiny total 4 |
| `GridExamples.KarmicIgnoresRawTotals` | src/components/numerology/GridCalculation.tsx:391-395 | "DI" totals 13 but is not flagged |
| `GridExamples.KarmicFlagsReducedThirteen` | src/components/numerology/GridCalculation.tsx:391-395 | "ZZZZZZA" totals 49, reduces to 13 and is flagged |
| `SymbolicImagery.Find` | src/components/numerology/SymbolicImagery.tsx:113-116 | nothing exactly when no entry has the key; otherwise the first entry with that key |
| `SymbolicImagery.FindInNumberedTable` | src/components/numerology/SymbolicImagery.tsx:36-109 | in a consecutively numbered table, a lookup is a position |
| `SymbolicImagery.SymbolsNumbered` | src/components/numerology/SymbolicImagery.tsx:36-109 | nine entries, with id = number = position + 1 |
| `SymbolicImagery.FindSymbol` | src/components/numerology/SymbolicImagery.tsx:113-116 | lookup by number or id finds entry n - 1 for 1..9 and nothing otherwise |
| `SymbolicImagery.LookUpById` | src/components/numerology/SymbolicImagery.tsx:174-177 | a lookup by id finds something exactly for 1..9, and then the entry with that id at position id - 1 |
| `SymbolicImagery.FindAll` | src/components/numerology/SymbolicImagery.tsx:112-116 | one lookup per input, in order |
| `SymbolicImagery.PresentFindAll` | src/components/numerology/SymbolicImagery.tsx:112-117 | the found entries' numbers are the inputs in 1..9, in order |
| `SymbolicImagery.UserSymbols` | src/components/numerology/SymbolicImagery.tsx:112-117 | the symbols of the four inputs in order, inputs outside 1..9 dropped, at most four, each from the table |
| `SymbolicImagery.DefaultPanelSymbols` | src/components/numerology/SymbolicImagery.tsx:27-32 | the panel's defaults show the symbols 1, 5, 9, 3 |
| `SymbolicImagery.Toggle` | src/components/numerology/SymbolicImagery.tsx:134-136 | a click clears the active symbol exactly when it was the clicked one, and otherwise makes the clicked one active |
| `SymbolicImagery.ToggleTwice` | src/components/numerology/SymbolicImagery.tsx:134-136 | two clicks restore the state unless another symbol was active, then nothing is active |
| `SymbolicImagery.SymbolPanel.constructor` | src/components/numerology/SymbolicImagery.tsx:33 | no symbol is active at first |
| `SymbolicImagery.SymbolPanel.Click` | src/components/numerology/SymbolicImagery.tsx:134-136 | the active symbol is toggled for the clicked symbol's id, and stays within 1..9 |
| `SymbolicImagery.SymbolPanel.Detail` | src/components/numerology/SymbolicImagery.tsx:166-178 | a detail only while a symbol is active, and it is the table entry of that id |
| `ResultsDisplay.SplitUserName` | src/components/numerology/ResultsDisplay.tsx:235-242 | first and middle hold no space; by the number of spaces, the name is first + " " + last, or first + " " + middle + " " + last |
| `ResultsDisplay.TrimKeepsDigits` | src/components/numerology/ResultsDisplay.tsx:247 | trimming keeps every digit |
| `ResultsDisplay.StripLetters` | src/components/numerology/ResultsDisplay.tsx:246 | no ASCII letter is left; the digits are kept in order |
| `ResultsDisplay.Collapse` | src/components/numerology/ResultsDisplay.tsx:248 | never longer than its input; `CollapseGap` and `CollapseKeeps` pin down the result |
| `ResultsDisplay.CollapseFacts` | src/components/numerology/ResultsDisplay.tsx:248 | no whitespace is left, only "/" is added, every other character keeps its count, and the digits are kept in order |
| `ResultsDisplay.CollapseOneGap` | src/components/numerology/ResultsDisplay.tsx:248 | a single space between whitespace-free words becomes "/" |
| `ResultsDisplay.CollapseAppend` | src/components/numerology/ResultsDisplay.tsx:248 | after a character that is not whitespace, the collapse of a concatenation is the concatenation of the collapses |
| `ResultsDisplay.CollapseRunAll` | src/components/numerology/ResultsDisplay.tsx:248 | a non-empty whitespace run before non-whitespace becomes one "/" |
| `ResultsDisplay.CollapseGap` | src/components/numerology/ResultsDisplay.tsx:248 | every maximal whitespace run becomes exactly one "/", with each side collapsed on its own |
| `ResultsDisplay.RemoveCommas` | src/components/numerology/ResultsDisplay.tsx:249 | no comma is left, every other character keeps its count, and the digits are kept in order |
| `ResultsDisplay.RemoveCommasAppend` | src/components/numerology/ResultsDisplay.tsx:249 | removing commas distributes over concatenation, so the other characters stay in order |
| `ResultsDisplay.RemoveOneComma` | src/components/numerology/ResultsDisplay.tsx:249 | one comma between comma-free text is dropped and nothing else changes |
| `ResultsDisplay.LongDateToSlashes` | src/components/numerology/ResultsDisplay.tsx:245-249 | no letter, whitespace or comma in the result, and every digit of the input kept in order |
| `ResultsDisplay.LongDateForm` | src/components/numerology/ResultsDisplay.tsx:245-249 | a long date "Month D, Y" becomes "D/Y" |
| `ResultsDisplay.LongDateFallsBackToToday` | src/components/numerology/ResultsDisplay.tsx:243-250 | without a formatted date, a long date with a numeric day and year reaches the grid as today's date |
| `ResultsDisplay.GridBirthDate` | src/components/numerology/ResultsDisplay.tsx:243-250 | a non-empty formatted date passes unchanged; otherwise the fallback rewrite |
| `ResultsDisplay.GridPropsFor` | src/components/numerology/ResultsDisplay.tsx:234-251 | the grid gets the three split parts and the chosen date |
| `ResultsDisplay.DefaultLongDate` | src/components/numerology/ResultsDisplay.tsx:245-249 | "January 15, 1985" becomes "15/1985" |
| `ResultsDisplay.DefaultDateFallsBackToToday` | src/components/numerology/ResultsDisplay.tsx:38 | without a formatted date the default birth date reaches the grid as today's date |
| `ResultsDisplay.SegmentId` | src/components/numerology/ResultsDisplay.tsx:179 | lower-cased, only the first space becomes "-", and a space remains exactly when the name had two |
| `ResultsDisplay.SegmentIdOfTwoWords` | src/components/numerology/ResultsDisplay.tsx:179 | a two-word name gets its words lower-cased and joined by "-" |
| `ResultsDisplay.LifePathSegmentId` | src/components/numerology/ResultsDisplay.tsx:179 | "Life Path" gets the id "life-path" |
| `ResultsDisplay.SegmentColor` | src/components/numerology/ResultsDisplay.tsx:182-189 | the default colour exactly for a name other than Life Path, Expression and Soul Urge |
| `ResultsDisplay.Segments` | src/components/numerology/ResultsDisplay.tsx:178-191 | one segment per number, in order, with its name, value, id and colour |
| `ResultsDisplay.FindByName` | src/components/numerology/ResultsDisplay.tsx:203 | the index of the first entry with the name, or -1 when there is none |
| `ResultsDisplay.SymbolicInput` | src/components/numerology/ResultsDisplay.tsx:202-214 | the first entry's value unless it is 0; the fallback when the name is missing; never 0 with a non-zero fallback |
| `ResultsDisplay.SymbolicInputs` | src/components/numerology/ResultsDisplay.tsx:201-215 | none of the four numbers handed to the panel is 0 |
| `ResultsDisplay.FourSymbolsForDigitValues` | src/components/numerology/ResultsDisplay.tsx:201-215 | with values in 0..9 the panel shows exactly four symbols |
| `ResultsDisplay.DefaultSymbolicInputs` | src/components/numerology/ResultsDisplay.tsx:40-77 | with no numbers, or the built-in list, the panel gets 7, 3, 9, 5 |
| `InputForm.Set` | src/components/numerology/InputForm.tsx:50-58 | the edited field takes the new value and no other field changes |
| `InputForm.FieldErrors` | src/components/numerology/InputForm.tsx:37-42 | an error for exactly the required listed fields that are empty, with their messages |
| `InputForm.SchemaValid` | src/components/numerology/InputForm.tsx:37-42 | valid exactly when every required field is non-empty |
| `InputForm.SchemaErrors` | src/components/numerology/InputForm.tsx:37-42 | no error exactly when first name, last name and birth date are non-empty |
| `InputForm.CanAdvance` | src/components/numerology/InputForm.tsx:64-76 | Next advances exactly when validating first and last name reports no error |
| `InputForm.SchemaValidIffAdvanceAndDate` | src/components/numerology/InputForm.tsx:64-72 | the schema accepts exactly when Next would advance and the date is set |
| `InputForm.BlankNamesPass` | src/components/numerology/InputForm.tsx:37-42 | names made only of spaces pass both checks, though they trim to nothing |
| `InputForm.Form.constructor` | src/components/numerology/InputForm.tsx:48-57 | step 0 and all fields empty |
| `InputForm.Form.Edit` | src/components/numerology/InputForm.tsx:50-58 | one field changes, the step does not |
| `InputForm.Form.NextStep` | src/components/numerology/InputForm.tsx:64-76 | step 1 when both names are filled; otherwise the step stays and the name errors are shown; the step stays 0 or 1 |
| `InputForm.Form.PrevStep` | src/components/numerology/InputForm.tsx:78-80 | the step is 0 whatever it was, so a second call changes nothing |
| `InputForm.Form.Submit` | src/components/numerology/InputForm.tsx:60-62 | the data goes out exactly when the schema accepts it, with the schema errors otherwise |
| `Home.ComposeName` | src/components/home.tsx:42 | length and space count of the composed name from those of its parts |
| `Home.ComposeNameShape` | src/components/home.tsx:42 | the middle name and its space appear only when the middle name is non-empty |
| `Home.CountGap` | src/components/home.tsx:42 | joining two strings with a space adds exactly one space |
| `Home.JoinThree` | src/components/home.tsx:39 | three fields joined by "/" |
| `Home.SplitThreeFields` | src/components/home.tsx:39 | three slash-free fields joined by "/" split back into the same three |
| `Home.DigitsHaveNoSlash` | src/components/home.tsx:39 | a written number holds no "/" |
| `Home.FormattedDate` | src/components/home.tsx:39 | exactly two slashes; splits into month + 1, day and year written out, or three "NaN" for an invalid date |
| `Home.Page.constructor` | src/components/home.tsx:17-24 | input state, no user data, no timer |
| `Home.Page.CalculateNumerology` | src/components/home.tsx:27-57 | stores the composed name, long date and formatted date, moves to calculating, starts one timer |
| `Home.Page.TimerFired` | src/components/home.tsx:54-56 | results state, data unchanged, one timer fewer |
| `Home.Page.NewCalculation` | src/components/home.tsx:59-62 | input state and no user data |
| `Home.Page.ShowsResults` | src/components/home.tsx:107 | results are shown only with data, and under the page invariant exactly in the results state |
| `Home.Page.GridInput` | src/components/home.tsx:107-118 | the grid gets props exactly while results are shown, with the formatted date as its date |
| `Home.SplitAtFirstSpace` | src/components/numerology/ResultsDisplay.tsx:235 | two names with space-free heads are equal only when heads and tails are |
| `Home.SplitComposedName` | src/components/home.tsx:42 | splitting the composed name gives the parts back exactly under the no-space conditions |
| `Home.ComposeSplitFewSpaces` | src/components/numerology/ResultsDisplay.tsx:235-242 | with at most one space, recomposing gives the name back exactly when it has one |
| `Home.ComposeThreeParts` | src/components/home.tsx:42 | first + " " + middle + " " + last is recomposed exactly when the middle is non-empty |
| `Home.ComposeSplitManySpaces` | src/components/numerology/ResultsDisplay.tsx:235-242 | with two spaces or more, recomposing gives the name back exactly when the second token is non-empty |
| `Home.ComposeSplitName` | src/components/numerology/ResultsDisplay.tsx:235-242 | recomposing the split gives the name back exactly with one space, or with more and a non-empty second token |
| `Home.OneWordNameGainsSpace` | src/components/numerology/ResultsDisplay.tsx:235-242 | a one-word name comes back with a trailing space |
| `Home.SplitDoubleSpace` | src/components/numerology/ResultsDisplay.tsx:236-238 | a doubled space yields an empty middle name |
| `Home.DoubleSpaceCollapses` | src/components/numerology/ResultsDisplay.tsx:235-242 | a doubled space comes back as one |
| `Home.ParseFormattedDate` | src/components/home.tsx:39 | the grid parses the formatted date back to month + 1, day and year |
| `Home.InvalidDateIsNaN` | src/components/home.tsx:29-39 | an invalid date reaches the grid as NaN fields and a NaN Life Path |
| `Home.SubmittedDataReachesGrid` | src/components/home.tsx:39-49 | space-free name parts and a valid date reach the grid unchanged |

## Left out

- Radial chart geometry (angles, trigonometry, SVG paths): floating point and drawing only.
- Loading animation, header, overview, number cards and action buttons: presentational markup and animation without logic.
- The text fields of the score list (descriptions, colour classes, detailed descriptions): `NumerologyNumber` keeps only name and value. `Segments` omits the description that the chart mapping passes through unchanged.
- The results screen's `activeTab` and `selectedNumber` state, and its `isLoading` branch: view state that no computation reads.
- JavaScript `Date` parsing and `toLocaleDateString`: the UTC year, month and day, or an invalid date, are the `JsDate` parameter, and the long date is a string parameter.
- Home.JsDate: years are natural numbers; dates before year 0 are not modelled. A date object's month (0..11) and day (1..31) ranges are the `WellFormed` precondition of `Home.Page.CalculateNumerology`.
- Wall-clock reads in the grid: "today" and the current year are parameters.
- `parseInt` beyond its use here: leading whitespace, signs and radix prefixes are not modelled. The model reads the leading run of ASCII digits, and gives NaN when there is none.
- JsText.ToDecimal: JavaScript numbers are doubles, but the model writes every natural number in plain decimal. From 10^21 on, JavaScript writes exponent form ("1e+21"), and integers above 2^53 are not exact. The grid converts only digit sums and dates, which stay far below both bounds.
- JsText.ParseIntToDecimal: the round trip is proved for every natural number. In JavaScript it fails from 10^21 on, because `parseInt("1e+21")` is 1.
- GridCalculation.CalculateNameValue: strings are sequences of Unicode scalar values, while `split('')` yields UTF-16 code units. For a character outside the Basic Multilingual Plane, the source lists two surrogate entries with value 0 each, and the model lists one entry with value 0. Only this per-character breakdown differs; the totals are the same.
- Case mapping outside ASCII: upper- and lower-casing change only `a`..`z` and `A`..`Z`.
- The `catch` branch of the date parse: splitting a string does not throw, so it is unreachable.
- Timer scheduling and cleanup: the timer is an explicit `TimerFired` event, and `pendingTimers` counts the started timers that have not yet fired.
- Form library internals (schema resolver, field registration, `trigger`): only the length-at-least-one rules, their messages and the Next-step test are modelled. `NextStep` returns the errors that `trigger` displays.
- An absent middle name and an empty one are both falsy in the source. The model represents both as the empty string.
- The grid's unused `userName` prop.
- The number badge under the active symbol and the symbol tooltips: markup driven by the same `activeSymbol` test that `Detail` models.
- ResultsDisplay.SymbolicInputs: its contract states only that none of the four numbers is 0. Which value each number takes is stated per name by `SymbolicInput`.
- Where the buttons exist: Submit exists only on step 1, New Calculation only on the results screen, and the form only in the input state. These appear as preconditions of the methods that model the handlers.
