/**
 * The numerology engine of the grid screen: the letter table, the per-letter
 * breakdown of each name part, the parse of an `M/D/Y` birth date, the five
 * scores, the karmic-debt test and the past/next personal year.
 *
 * Every score is reduced by ONE pass of decimal digit summing when its total
 * exceeds 9, so a score may still be larger than 9.
 */
module GridCalculation {
  import opened JsText

  // ------------------------------------------------------------ letter table

  /** `letterValues`: A..I -> 1..9, J..R -> 1..9, S..Z -> 1..8. */
  const LetterValues: map<char, nat> := map[
    'A' := 1, 'B' := 2, 'C' := 3, 'D' := 4, 'E' := 5, 'F' := 6, 'G' := 7, 'H' := 8, 'I' := 9,
    'J' := 1, 'K' := 2, 'L' := 3, 'M' := 4, 'N' := 5, 'O' := 6, 'P' := 7, 'Q' := 8, 'R' := 9,
    'S' := 1, 'T' := 2, 'U' := 3, 'V' := 4, 'W' := 5, 'X' := 6, 'Y' := 7, 'Z' := 8]

  /** `letterValues[letter] || 0` for a character that has already been upper-cased. */
  function LetterValue(c: char): nat
  {
    if c in LetterValues then LetterValues[c] else 0
  }

  /** The table is the cyclic assignment of 1..9 to the alphabet; everything else is 0. */
  lemma LetterValueCyclic(c: char)
    ensures LetterValue(c) == if 'A' <= c <= 'Z' then (c as int - 'A' as int) % 9 + 1 else 0
  {
    if 'A' <= c <= 'Z' {
      var k := c as int - 'A' as int;
      assert c == ('A' as int + k) as char;
      assert 0 <= k < 26;
      if k < 9 {
        assert k == 0 || k == 1 || k == 2 || k == 3 || k == 4 || k == 5 || k == 6 || k == 7 || k == 8;
      } else if k < 18 {
        assert k == 9 || k == 10 || k == 11 || k == 12 || k == 13 || k == 14 || k == 15 || k == 16 || k == 17;
      } else {
        assert k == 18 || k == 19 || k == 20 || k == 21 || k == 22 || k == 23 || k == 24 || k == 25;
      }
    }
  }

  /** `letters.map(letter => letterValues[letter] || 0)`. */
  function Values(letters: string): (r: seq<nat>)
    ensures |r| == |letters|
    ensures forall i :: 0 <= i < |letters| ==> r[i] == LetterValue(letters[i])
  {
    if letters == [] then [] else [LetterValue(letters[0])] + Values(letters[1..])
  }

  lemma {:induction false} ValuesAppend(a: string, b: string)
    ensures Values(a + b) == Values(a) + Values(b)
  {
    if a == [] {
      assert a + b == b;
    } else {
      assert (a + b)[1..] == a[1..] + b;
      ValuesAppend(a[1..], b);
    }
  }

  // ----------------------------------------------------------- name breakdown

  /** The per-letter breakdown of one name part, as the grid shows it. */
  datatype NameBreakdown = NameBreakdown(letters: string, numbers: seq<nat>)

  /**
   * `calculateNameValue`: every character, upper-cased, in order, with its
   * table value (0 for spaces, digits and punctuation).
   */
  function CalculateNameValue(name: string): (r: NameBreakdown)
    ensures |r.letters| == |name| && |r.numbers| == |name|
    ensures forall i :: 0 <= i < |name| ==>
      r.letters[i] == ToUpper(name[i]) && r.numbers[i] == LetterValue(ToUpper(name[i]))
    ensures forall i :: 0 <= i < |name| ==> (r.numbers[i] == 0 <==> !IsAsciiLetter(name[i]))
    ensures forall i :: 0 <= i < |name| ==> r.numbers[i] <= 9
  {
    var letters := UpperCase(name);
    forall i | 0 <= i < |name|
      ensures LetterValue(letters[i]) == 0 <==> !IsAsciiLetter(name[i])
      ensures LetterValue(letters[i]) <= 9
    {
      LetterValueCyclic(letters[i]);
    }
    NameBreakdown(letters, Values(letters))
  }

  // ----------------------------------------------------------------- the props

  /** The strings the grid screen receives. */
  datatype GridProps = GridProps(firstName: string, middleName: string, lastName: string, birthDate: string)

  /** The grid's defaults, used when a prop is not passed. */
  const DefaultProps := GridProps("LAURA", "JULIA", "COSTAS PEREZ", "02/09/1991")

  /** The middle name is only broken down when it is non-empty (`middleName ? ... : null`). */
  function MiddleCalc(p: GridProps): (r: Option<NameBreakdown>)
    ensures r.Some? <==> p.middleName != []
    ensures r.Some? ==> |r.value.letters| == |p.middleName| && |r.value.numbers| == |p.middleName|
  {
    if p.middleName != [] then Some(CalculateNameValue(p.middleName)) else None
  }

  /** All letters of first, middle (when present) and last name, in that order. */
  function AllLetters(p: GridProps): string
  {
    CalculateNameValue(p.firstName).letters
    + (if MiddleCalc(p).Some? then MiddleCalc(p).value.letters else [])
    + CalculateNameValue(p.lastName).letters
  }

  /** All per-letter numbers of first, middle (when present) and last name. */
  function AllNumbers(p: GridProps): seq<nat>
  {
    CalculateNameValue(p.firstName).numbers
    + (if MiddleCalc(p).Some? then MiddleCalc(p).value.numbers else [])
    + CalculateNameValue(p.lastName).numbers
  }

  lemma AllNumbersAreValues(p: GridProps)
    ensures AllNumbers(p) == Values(AllLetters(p))
  {
    var f, l := UpperCase(p.firstName), UpperCase(p.lastName);
    var m := if p.middleName != [] then UpperCase(p.middleName) else [];
    ValuesAppend(f, m);
    ValuesAppend(f + m, l);
  }

  // --------------------------------------------------------------- reduction

  /** Sum of a sequence, `reduce((a, b) => a + b, 0)`. */
  function Sum(xs: seq<nat>): nat
  {
    if xs == [] then 0 else xs[0] + Sum(xs[1..])
  }

  /** Sum of the digit values of an all-digit string. */
  function SumOfDigits(s: string): nat
    requires AllDigits(s)
  {
    if s == [] then 0 else SumOfDigits(s[..|s| - 1]) + DigitValue(s[|s| - 1])
  }

  /** `n.toString().split("").map(Number).reduce((a, b) => a + b, 0)`. */
  function DigitSum(n: nat): nat
  {
    SumOfDigits(ToDecimal(n))
  }

  lemma DigitSumStep(n: nat)
    ensures DigitSum(n) == if n < 10 then n else DigitSum(n / 10) + n % 10
  {
    var s := ToDecimal(n);
    assert DigitSum(n) == SumOfDigits(s[..|s| - 1]) + DigitValue(s[|s| - 1]);
    if n >= 10 {
      assert s == ToDecimal(n / 10) + [DigitChar(n % 10)];
      assert s[..|s| - 1] == ToDecimal(n / 10);
      assert DigitValue(s[|s| - 1]) == n % 10;
    } else {
      assert s == [DigitChar(n)];
      assert s[..|s| - 1] == [];
    }
  }

  lemma ResidueStep(q: nat, d: nat, s: nat)
    requires s % 9 == q % 9
    ensures (s + d) % 9 == (10 * q + d) % 9
  {
    var r, k, j := s % 9, s / 9, q / 9;
    assert s == 9 * k + r && q == 9 * j + r;
    var m := 10 * j + r - k;
    assert 10 * q + d == (s + d) + 9 * m;
  }

  /** Digit summing keeps the residue modulo 9. */
  lemma {:induction false} DigitSumMod9(n: nat)
    ensures DigitSum(n) % 9 == n % 9
  {
    DigitSumStep(n);
    if n >= 10 {
      var q, d := n / 10, n % 10;
      DigitSumMod9(q);
      ResidueStep(q, d, DigitSum(q));
      assert n == 10 * q + d;
    }
  }

  /** Digit summing never grows a number, shrinks any number of two or more digits, and keeps it positive. */
  lemma {:induction false} DigitSumBounds(n: nat)
    ensures DigitSum(n) <= n
    ensures n >= 10 ==> DigitSum(n) < n
    ensures n > 0 ==> DigitSum(n) > 0
  {
    DigitSumStep(n);
    if n >= 10 {
      DigitSumBounds(n / 10);
    }
  }

  /**
   * `total > 9 ? digitSum(total) : total`: a single pass of digit summing.
   * It is not a digital root: the result may still exceed 9.
   */
  function Reduce(total: nat): (r: nat)
    ensures total <= 9 ==> r == total
    ensures total > 9 ==> 0 < r < total && r % 9 == total % 9
  {
    if total > 9 then DigitSumMod9(total); DigitSumBounds(total); DigitSum(total) else total
  }

  /** The same reduction on a number that may be NaN or negative (both pass through). */
  function ReduceNum(total: JsNum): (r: JsNum)
    ensures r.NaN? <==> total.NaN?
    ensures total.Num? && total.n <= 9 ==> r == total
    ensures total.Num? && total.n > 9 ==> r.Num? && 0 < r.n < total.n && r.n % 9 == total.n % 9
  {
    if total.Num? && total.n > 9 then Num(Reduce(total.n)) else total
  }

  // -------------------------------------------------------------- birth date

  /** The injected "today": `getMonth()` (0-based), `getDate()`, `getFullYear()`. */
  datatype Today = Today(month0: nat, date: nat, fullYear: nat)

  /** Month, day and year as the grid holds them after parsing. */
  datatype BirthDate = BirthDate(month: JsNum, day: JsNum, year: JsNum)

  function TodayDate(today: Today): BirthDate
  {
    BirthDate(Num(today.month0 + 1), Num(today.date), Num(today.fullYear))
  }

  /**
   * Splits the birth-date string on "/": with three or more parts, month, day
   * and year are the `parseInt` of parts 0, 1 and 2 (further parts are
   * ignored); otherwise the date falls back to today.
   */
  function ParseBirthDate(s: string, today: Today): (d: BirthDate)
    ensures Count(s, '/') < 2 ==> d == TodayDate(today)
    ensures Count(s, '/') >= 2 ==> d.month == ParseInt(s)
  {
    var parts := Split(s, '/');
    SplitHeadLeadingDigits(s, '/');
    if |parts| >= 3 then BirthDate(ParseInt(parts[0]), ParseInt(parts[1]), ParseInt(parts[2]))
    else TodayDate(today)
  }

  /** The first piece of a split on a non-digit has the same leading digits as the whole string. */
  lemma {:induction false} SplitHeadLeadingDigits(s: string, sep: char)
    requires !IsDigit(sep)
    ensures LeadingDigits(Split(s, sep)[0]) == LeadingDigits(s)
  {
    if s != [] && s[0] != sep {
      SplitHeadLeadingDigits(s[1..], sep);
    }
  }

  /** A date with at least two slashes ignores whatever follows a further slash. */
  lemma ParseIgnoresExtraParts(s: string, extra: string, today: Today)
    requires Count(s, '/') >= 2
    ensures ParseBirthDate(s + "/" + extra, today) == ParseBirthDate(s, today)
  {
    SplitAround(s, extra, '/');
  }

  /** Three non-empty digit strings joined by "/" parse to their decimal values. */
  lemma {:induction false} ParseDigitFields(m: string, d: string, y: string, today: Today)
    requires AllDigits(m) && AllDigits(d) && AllDigits(y)
    requires m != [] && d != [] && y != []
    ensures ParseBirthDate(m + "/" + d + "/" + y, today)
         == BirthDate(Num(DecimalValue(m)), Num(DecimalValue(d)), Num(DecimalValue(y)))
  {
    var parts := [m, d, y];
    assert parts[1..] == [d, y] && [d, y][1..] == [y];
    assert Join([y], "/") == y;
    assert Join([d, y], "/") == d + "/" + y;
    assert Join(parts, "/") == m + "/" + (d + "/" + y);
    assert m + "/" + (d + "/" + y) == m + "/" + d + "/" + y;
    forall i | 0 <= i < 3 ensures '/' !in parts[i] {
      assert forall k :: 0 <= k < |parts[i]| ==> parts[i][k] != '/';
    }
    SplitJoin(parts, '/');
    LeadingDigitsOfDigits(m);
    LeadingDigitsOfDigits(d);
    LeadingDigitsOfDigits(y);
  }

  /** Three decimal numerals joined by "/" parse back to the numbers they were written from. */
  lemma ParseDecimalDate(month: nat, day: nat, year: nat, today: Today)
    ensures ParseBirthDate(ToDecimal(month) + "/" + ToDecimal(day) + "/" + ToDecimal(year), today)
         == BirthDate(Num(month), Num(day), Num(year))
  {
    ParseDigitFields(ToDecimal(month), ToDecimal(day), ToDecimal(year), today);
  }

  // ------------------------------------------------------------------ scores

  /** `year.toString().split("").map(Number).reduce(+)`: NaN unless the year is a non-negative number. */
  function YearDigitSum(year: JsNum): (r: JsNum)
    ensures r.Num? <==> year.Num? && year.n >= 0
  {
    if year.Num? && year.n >= 0 then Num(DigitSum(year.n)) else NaN
  }

  /** `calculateLifePath`: month + day + the digit sum of the year, reduced once. */
  function LifePath(d: BirthDate): (r: JsNum)
    ensures r.Num? <==> d.month.Num? && d.day.Num? && d.year.Num? && d.year.n >= 0
  {
    ReduceNum(Plus(Plus(d.month, d.day), YearDigitSum(d.year)))
  }

  /** `calculateExpression`'s total: every letter value of the three name parts. */
  function ExpressionTotal(p: GridProps): (total: nat)
    ensures total == Sum(Values(AllLetters(p)))
    ensures total <= 9 * |AllLetters(p)|
  {
    AllNumbersAreValues(p);
    SumValuesBound(AllLetters(p));
    Sum(AllNumbers(p))
  }

  /** No letter is worth more than 9. */
  lemma {:induction false} SumValuesBound(letters: string)
    ensures Sum(Values(letters)) <= 9 * |letters|
  {
    if letters != [] {
      LetterValueCyclic(letters[0]);
      SumValuesBound(letters[1..]);
    }
  }

  const Vowels: seq<char> := ['A', 'E', 'I', 'O', 'U']

  const Consonants: seq<char> := [
    'B', 'C', 'D', 'F', 'G', 'H', 'J', 'K', 'L', 'M', 'N',
    'P', 'Q', 'R', 'S', 'T', 'V', 'W', 'X', 'Y', 'Z']

  /**
   * `letters.filter(letter => keep.includes(letter))`: every occurrence of a
   * kept letter survives, nothing else does, and `FilterAppend` fixes the order.
   */
  function Filter(letters: string, keep: seq<char>): (r: string)
    ensures |r| <= |letters|
    ensures forall c :: c in r ==> c in letters && c in keep
    ensures forall c :: c in keep ==> Count(r, c) == Count(letters, c)
  {
    if letters == [] then []
    else
      var rest := Filter(letters[1..], keep);
      if letters[0] in keep then
        assert ([letters[0]] + rest)[1..] == rest;
        [letters[0]] + rest
      else rest
  }

  /** Filtering distributes over concatenation, so the kept letters keep their order. */
  lemma {:induction false} FilterAppend(a: string, b: string, keep: seq<char>)
    ensures Filter(a + b, keep) == Filter(a, keep) + Filter(b, keep)
  {
    if a == [] {
      assert a + b == b;
    } else {
      assert (a + b)[0] == a[0] && (a + b)[1..] == a[1..] + b;
      FilterAppend(a[1..], b, keep);
    }
  }

  /** A single letter is kept exactly when it is in the set. */
  lemma FilterOne(c: char, keep: seq<char>)
    ensures Filter([c], keep) == if c in keep then [c] else []
  {
    assert [c][1..] == [];
  }

  /** `calculateSoulUrge`'s total: the values of the vowels only. */
  function SoulUrgeTotal(p: GridProps): (total: nat)
    ensures total == 0 <==> forall i :: 0 <= i < |AllLetters(p)| ==> AllLetters(p)[i] !in Vowels
  {
    FilterNone(AllLetters(p), Vowels);
    KeptLettersCount(Filter(AllLetters(p), Vowels), Vowels);
    Sum(Values(Filter(AllLetters(p), Vowels)))
  }

  /** `calculateDestiny`'s total: the values of the listed consonants only. */
  function DestinyTotal(p: GridProps): (total: nat)
    ensures total == 0 <==> forall i :: 0 <= i < |AllLetters(p)| ==> AllLetters(p)[i] !in Consonants
  {
    FilterNone(AllLetters(p), Consonants);
    KeptLettersCount(Filter(AllLetters(p), Consonants), Consonants);
    Sum(Values(Filter(AllLetters(p), Consonants)))
  }

  /** The filter comes out empty exactly when no letter is in the set. */
  lemma {:induction false} FilterNone(letters: string, keep: seq<char>)
    ensures Filter(letters, keep) == [] <==> forall i :: 0 <= i < |letters| ==> letters[i] !in keep
  {
    if letters != [] {
      FilterNone(letters[1..], keep);
      assert forall i :: 1 <= i < |letters| ==> letters[i] == letters[1..][i - 1];
    }
  }

  /** Letters of either class are all worth at least 1, so their total is 0 only when there are none. */
  lemma {:induction false} KeptLettersCount(letters: string, keep: seq<char>)
    requires keep == Vowels || keep == Consonants
    requires forall c :: c in letters ==> c in keep
    ensures Sum(Values(letters)) == 0 <==> letters == []
  {
    if letters != [] {
      assert letters[0] in letters;
      LetterClasses(letters[0]);
      LetterValueCyclic(letters[0]);
    }
  }

  /** `calculatePersonalYear`: month + day + the full current year (not digit-summed), reduced once. */
  function PersonalYear(d: BirthDate, currentYear: int): (r: JsNum)
    ensures r.Num? <==> d.month.Num? && d.day.Num?
  {
    ReduceNum(Plus(Plus(d.month, d.day), Num(currentYear)))
  }

  /** Everything the grid screen computes. */
  datatype Grid = Grid(
    firstName: NameBreakdown, middleName: Option<NameBreakdown>, lastName: NameBreakdown,
    date: BirthDate,
    lifePath: JsNum, expression: nat, soulUrge: nat, destiny: nat, personalYear: JsNum)

  /** The grid for the given props, with "today" and the current year injected. */
  function Calculate(p: GridProps, today: Today, currentYear: int): (g: Grid)
    ensures g.date == ParseBirthDate(p.birthDate, today)
    ensures g.expression == Reduce(ExpressionTotal(p))
    ensures g.soulUrge == Reduce(SoulUrgeTotal(p)) && g.destiny == Reduce(DestinyTotal(p))
    ensures g.lifePath == LifePath(g.date) && g.personalYear == PersonalYear(g.date, currentYear)
  {
    var date := ParseBirthDate(p.birthDate, today);
    Grid(
      CalculateNameValue(p.firstName), MiddleCalc(p), CalculateNameValue(p.lastName),
      date,
      LifePath(date), Reduce(ExpressionTotal(p)), Reduce(SoulUrgeTotal(p)), Reduce(DestinyTotal(p)),
      PersonalYear(date, currentYear))
  }

  // ------------------------------------------------------ karmic debt, years

  /** `[13, 14, 16, 19].includes(v)`; NaN is never included. */
  predicate IsKarmic(v: JsNum)
    ensures IsKarmic(v) ==> v.Num? && 13 <= v.n <= 19
  {
    v.Num? && (v.n == 13 || v.n == 14 || v.n == 16 || v.n == 19)
  }

  /** Karmic debt looks at Life Path, Expression and Destiny after their one reduction. */
  predicate KarmicDebt(g: Grid)
    ensures KarmicDebt(g) ==> (g.lifePath.Num? && g.lifePath.n >= 13) || g.expression >= 13 || g.destiny >= 13
  {
    IsKarmic(g.lifePath) || IsKarmic(Num(g.expression)) || IsKarmic(Num(g.destiny))
  }

  /** `personalYearNumber - 1 || 9`: 0 and NaN are falsy and give 9. */
  function PastYear(p: JsNum): (r: JsNum)
    ensures r.Num?
    ensures p.Num? && p.n != 1 ==> r == Num(p.n - 1)
    ensures !p.Num? || p.n == 1 ==> r == Num(9)
  {
    if p.Num? && p.n != 1 then Num(p.n - 1) else Num(9)
  }

  /** `personalYearNumber === 9 ? 1 : personalYearNumber + 1`. */
  function NextYear(p: JsNum): (r: JsNum)
    ensures r.Num? <==> p.Num?
    ensures p.Num? && p.n != 9 ==> r == Num(p.n + 1)
    ensures p == Num(9) ==> r == Num(1)
  {
    if p == Num(9) then Num(1) else Plus(p, Num(1))
  }

  // ------------------------------------------------------------- properties

  /** Every character is a vowel, one of the 21 consonants, or has value 0. */
  lemma LetterClasses(c: char)
    ensures c in Vowels ==> c !in Consonants
    ensures c in Vowels || c in Consonants || LetterValue(c) == 0
    ensures c in Vowels || c in Consonants <==> 'A' <= c <= 'Z'
  {
    LetterValueCyclic(c);
  }

  lemma {:induction false} FilterPartition(letters: string)
    ensures Sum(Values(Filter(letters, Vowels))) + Sum(Values(Filter(letters, Consonants)))
         == Sum(Values(letters))
  {
    if letters != [] {
      FilterPartition(letters[1..]);
      LetterClasses(letters[0]);
    }
  }

  /** The unreduced Soul Urge and Destiny totals add up to the unreduced Expression total. */
  lemma SoulUrgePlusDestiny(p: GridProps)
    ensures SoulUrgeTotal(p) + DestinyTotal(p) == ExpressionTotal(p)
  {
    AllNumbersAreValues(p);
    FilterPartition(AllLetters(p));
  }

  /** Life Path agrees with month + day + year modulo 9 whenever it is a number. */
  lemma LifePathCongruent(d: BirthDate)
    requires d.month.Num? && d.day.Num? && d.year.Num? && d.year.n >= 0
    ensures LifePath(d).Num?
    ensures LifePath(d).n % 9 == (d.month.n + d.day.n + d.year.n) % 9
  {
    var a, y := d.month.n + d.day.n, d.year.n;
    DigitSumMod9(y);
    var total := a + DigitSum(y);
    assert LifePath(d) == ReduceNum(Num(total));
    assert ReduceNum(Num(total)).n % 9 == total % 9;
    assert total % 9 == (a + y) % 9 by {
      ShiftMod9(a, DigitSum(y), y);
    }
  }

  lemma ShiftMod9(a: int, x: int, y: int)
    requires x % 9 == y % 9
    ensures (a + x) % 9 == (a + y) % 9
  {
    assert (a + x) - (a + y) == (x / 9 - y / 9) * 9;
  }

  /** Personal Year agrees with month + day + current year modulo 9. */
  lemma PersonalYearCongruent(d: BirthDate, currentYear: int)
    requires d.month.Num? && d.day.Num?
    ensures PersonalYear(d, currentYear).Num?
    ensures PersonalYear(d, currentYear).n % 9 == (d.month.n + d.day.n + currentYear) % 9
  {
  }

  /** A reduced score can only be a karmic number when its total was at least 49. */
  lemma KarmicNeedsLargeTotal(total: JsNum)
    requires IsKarmic(ReduceNum(total))
    ensures total.Num? && total.n >= 49
  {
    if total.n <= 48 {
      DigitSumStep(total.n);
      DigitSumStep(total.n / 10);
    }
  }

  lemma SumAppend(a: seq<nat>, b: seq<nat>)
    ensures Sum(a + b) == Sum(a) + Sum(b)
  {
    if a == [] {
      assert a + b == b;
    } else {
      assert (a + b)[1..] == a[1..] + b;
    }
  }

  /** Soul Urge and Personal Year never take part in the karmic-debt test. */
  lemma KarmicIgnoresSoulUrgeAndPersonalYear(g: Grid, soulUrge: nat, personalYear: JsNum)
    ensures KarmicDebt(g.(soulUrge := soulUrge, personalYear := personalYear)) == KarmicDebt(g)
  {
  }

  /** Past and next personal year wrap within 1..9 and undo each other there. */
  lemma YearWrap(n: int)
    requires 1 <= n <= 9
    ensures PastYear(Num(n)).Num? && 1 <= PastYear(Num(n)).n <= 9
    ensures NextYear(Num(n)).Num? && 1 <= NextYear(Num(n)).n <= 9
    ensures NextYear(PastYear(Num(n))) == Num(n) && PastYear(NextYear(Num(n))) == Num(n)
  {
  }
}
