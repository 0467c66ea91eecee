/**
 * The computations of the results screen: how it splits the display name
 * back into three parts and rewrites a long-form birth date for the grid,
 * how it labels and colours chart segments, and which four numbers it hands
 * to the symbolic panel.
 */
module ResultsDisplay {
  import opened JsText
  import opened GridCalculation
  import opened SymbolicImagery

  // ------------------------------------------------------------ the name

  datatype NameParts = NameParts(first: string, middle: string, last: string)

  /**
   * Splitting `userName` on single spaces: token 0 is the first name, token 1
   * the middle name when there are at least three tokens, and the remaining
   * tokens, joined again with spaces, the last name.
   */
  function SplitUserName(userName: string): (r: NameParts)
    ensures ' ' !in r.first && ' ' !in r.middle
    ensures Count(userName, ' ') == 0 ==> r == NameParts(userName, "", "")
    ensures Count(userName, ' ') == 1 ==> r.middle == "" && ' ' !in r.last && userName == r.first + " " + r.last
    ensures Count(userName, ' ') >= 2 ==> userName == r.first + " " + r.middle + " " + r.last
  {
    var tokens := Split(userName, ' ');
    var middle := if |tokens| > 2 then tokens[1] else "";
    var last := Join(tokens[if |tokens| > 2 then 2 else 1..], " ");
    if |tokens| == 1 then
      NameParts(tokens[0], middle, last)
    else if |tokens| == 2 then
      assert tokens[1..] == [tokens[1]];
      NameParts(tokens[0], middle, last)
    else
      assert tokens[1..][1..] == tokens[2..];
      assert Join(tokens, " ") == tokens[0] + " " + Join(tokens[1..], " ");
      assert Join(tokens[1..], " ") == tokens[1] + " " + Join(tokens[2..], " ");
      NameParts(tokens[0], middle, last)
  }

  // ------------------------------------------------------------ the date

  /** The decimal digits of `s`, in order. */
  function DigitsOf(s: string): (r: string)
    ensures AllDigits(r)
  {
    if s == [] then [] else (if IsDigit(s[0]) then [s[0]] else []) + DigitsOf(s[1..])
  }

  lemma {:induction false} DigitsOfAppend(a: string, b: string)
    ensures DigitsOf(a + b) == DigitsOf(a) + DigitsOf(b)
  {
    if a == [] {
      assert a + b == b;
    } else {
      var head := if IsDigit(a[0]) then [a[0]] else [];
      calc {
        DigitsOf(a + b);
      == { assert (a + b)[0] == a[0] && (a + b)[1..] == a[1..] + b; }
        head + DigitsOf(a[1..] + b);
      == { DigitsOfAppend(a[1..], b); }
        head + (DigitsOf(a[1..]) + DigitsOf(b));
      ==
        DigitsOf(a) + DigitsOf(b);
      }
    }
  }

  lemma {:induction false} DigitsOfWhitespace(s: string)
    requires forall i :: 0 <= i < |s| ==> IsJsWhitespace(s[i])
    ensures DigitsOf(s) == []
  {
    if s != [] {
      DigitsOfWhitespace(s[1..]);
    }
  }

  /** `trim` only removes whitespace, so it keeps every digit. */
  lemma TrimKeepsDigits(s: string)
    ensures DigitsOf(Trim(s)) == DigitsOf(s)
  {
    TrimStartKeepsDigits(s);
    TrimEndKeepsDigits(TrimStart(s));
  }

  lemma {:induction false} TrimStartKeepsDigits(s: string)
    ensures DigitsOf(TrimStart(s)) == DigitsOf(s)
  {
    if s != [] && IsJsWhitespace(s[0]) {
      TrimStartKeepsDigits(s[1..]);
    }
  }

  lemma {:induction false} TrimEndKeepsDigits(s: string)
    ensures DigitsOf(TrimEnd(s)) == DigitsOf(s)
  {
    if s != [] && IsJsWhitespace(s[|s| - 1]) {
      var init := s[..|s| - 1];
      TrimEndKeepsDigits(init);
      assert s == init + [s[|s| - 1]];
      DigitsOfAppend(init, [s[|s| - 1]]);
      assert DigitsOf([s[|s| - 1]]) == [] by {
        assert [s[|s| - 1]][1..] == [];
      }
    }
  }

  /** `replace(/[a-zA-Z]/g, "")`. */
  function StripLetters(s: string): (r: string)
    ensures forall i :: 0 <= i < |r| ==> !IsAsciiLetter(r[i])
    ensures forall c :: c in r ==> c in s
    ensures DigitsOf(r) == DigitsOf(s)
  {
    if s == [] then []
    else
      var rest := StripLetters(s[1..]);
      if IsAsciiLetter(s[0]) then rest
      else
        assert ([s[0]] + rest)[1..] == rest;
        [s[0]] + rest
  }

  /** `replace(/,/g, "")`. */
  function RemoveCommas(s: string): (r: string)
    ensures ',' !in r
    ensures forall c :: c in r ==> c in s
    ensures forall c :: c != ',' ==> Count(r, c) == Count(s, c)
    ensures DigitsOf(r) == DigitsOf(s)
  {
    if s == [] then []
    else
      var rest := RemoveCommas(s[1..]);
      if s[0] == ',' then rest
      else
        assert ([s[0]] + rest)[1..] == rest;
        [s[0]] + rest
  }

  /** Removing commas distributes over concatenation; with `RemoveCommasKeeps` this pins the result down. */
  lemma {:induction false} RemoveCommasAppend(a: string, b: string)
    ensures RemoveCommas(a + b) == RemoveCommas(a) + RemoveCommas(b)
  {
    if a == [] {
      assert a + b == b;
    } else {
      assert (a + b)[0] == a[0] && (a + b)[1..] == a[1..] + b;
      RemoveCommasAppend(a[1..], b);
    }
  }

  /**
   * `replace(/\s+/g, "/")`, one character at a time: a whitespace character
   * followed by more whitespace is dropped, and the one that ends the run
   * becomes "/", so every maximal run of whitespace becomes one "/".
   */
  function Collapse(s: string): (r: string)
    ensures |r| <= |s|
  {
    if s == [] then []
    else if IsJsWhitespace(s[0]) then
      if |s| > 1 && IsJsWhitespace(s[1]) then Collapse(s[1..]) else "/" + Collapse(s[1..])
    else [s[0]] + Collapse(s[1..])
  }

  lemma {:induction false} CollapseFacts(s: string)
    ensures forall i :: 0 <= i < |Collapse(s)| ==> !IsJsWhitespace(Collapse(s)[i])
    ensures forall c :: c in Collapse(s) ==> c in s || c == '/'
    ensures forall c :: !IsJsWhitespace(c) && c != '/' ==> Count(Collapse(s), c) == Count(s, c)
    ensures DigitsOf(Collapse(s)) == DigitsOf(s)
  {
    if s != [] {
      CollapseFacts(s[1..]);
      var rest := Collapse(s[1..]);
      assert ("/" + rest)[1..] == rest;
      assert ([s[0]] + rest)[1..] == rest;
    }
  }

  /**
   * The fallback rewrite of a long-form date such as "January 15, 1985":
   * letters removed, trimmed, whitespace runs turned into "/", commas
   * removed. The result has no letter, no whitespace and no comma, and
   * keeps every digit of the input in order.
   */
  function LongDateToSlashes(birthDate: string): (r: string)
    ensures forall i :: 0 <= i < |r| ==> !IsAsciiLetter(r[i]) && !IsJsWhitespace(r[i]) && r[i] != ','
    ensures DigitsOf(r) == DigitsOf(birthDate)
  {
    LongDateSteps(birthDate);
    RemoveCommas(Collapse(Trim(StripLetters(birthDate))))
  }

  /** What each of the four rewrites of `LongDateToSlashes` removes, and that none loses a digit. */
  lemma LongDateSteps(birthDate: string)
    ensures var r := RemoveCommas(Collapse(Trim(StripLetters(birthDate))));
      Plain(r) && DigitsOf(r) == DigitsOf(birthDate)
  {
    var stripped := StripLetters(birthDate);
    var trimmed := Trim(stripped);
    assert DigitsOf(trimmed) == DigitsOf(birthDate) && forall c :: c in trimmed ==> !IsAsciiLetter(c) by {
      TrimKeepsDigits(stripped);
    }
    var slashed := Collapse(trimmed);
    assert DigitsOf(slashed) == DigitsOf(birthDate) && forall c :: c in slashed ==> !IsAsciiLetter(c) && !IsJsWhitespace(c) by {
      CollapseFacts(trimmed);
    }
    var r := RemoveCommas(slashed);
    assert forall i :: 0 <= i < |r| ==> r[i] in slashed;
  }

  /** `formattedDate || <fallback>`: a missing or empty formatted date falls back to the rewrite. */
  function GridBirthDate(birthDate: string, formattedDate: Option<string>): (r: string)
    ensures formattedDate.Some? && formattedDate.value != "" ==> r == formattedDate.value
    ensures formattedDate.None? || formattedDate.value == "" ==> r == LongDateToSlashes(birthDate)
  {
    if formattedDate.Some? && formattedDate.value != "" then formattedDate.value
    else LongDateToSlashes(birthDate)
  }

  /** The props the results screen gives the grid. */
  function GridPropsFor(userName: string, birthDate: string, formattedDate: Option<string>): (p: GridProps)
    ensures NameParts(p.firstName, p.middleName, p.lastName) == SplitUserName(userName)
    ensures p.birthDate == GridBirthDate(birthDate, formattedDate)
  {
    var n := SplitUserName(userName);
    GridProps(n.first, n.middle, n.last, GridBirthDate(birthDate, formattedDate))
  }

  /** The screen's default birth date. */
  const DefaultBirthDate: string := "January 15, 1985"

  lemma {:induction false} StripLettersAppend(a: string, b: string)
    ensures StripLetters(a + b) == StripLetters(a) + StripLetters(b)
  {
    if a == [] {
      assert a + b == b;
    } else {
      assert (a + b)[1..] == a[1..] + b;
      StripLettersAppend(a[1..], b);
    }
  }

  lemma {:induction false} StripLettersKeeps(s: string)
    requires forall i :: 0 <= i < |s| ==> !IsAsciiLetter(s[i])
    ensures StripLetters(s) == s
  {
    if s != [] {
      StripLettersKeeps(s[1..]);
      assert [s[0]] + s[1..] == s;
    }
  }

  lemma {:induction false} StripLettersDrops(s: string)
    requires forall i :: 0 <= i < |s| ==> IsAsciiLetter(s[i])
    ensures StripLetters(s) == []
  {
    if s != [] {
      StripLettersDrops(s[1..]);
    }
  }

  /** A whitespace character followed by text whose last character is not whitespace. */
  lemma CollapseWhitespaceStep(c: char, x: string, t: string)
    requires IsJsWhitespace(c) && x != [] && !IsJsWhitespace(x[|x| - 1])
    requires Collapse(x + t) == Collapse(x) + Collapse(t)
    ensures Collapse([c] + x + t) == Collapse([c] + x) + Collapse(t)
  {
    var u := x + t;
    AppendAssoc([c], x, t);
    CollapseWhitespaceHead(c, u);
    CollapseWhitespaceHead(c, x);
    TailOfAppend(x, t);
    if !IsJsWhitespace(x[0]) {
      ConsAppend('/', Collapse(x), Collapse(t));
    }
  }

  /** How the collapse treats a leading whitespace character. */
  lemma CollapseWhitespaceHead(c: char, y: string)
    requires IsJsWhitespace(c) && y != []
    ensures Collapse([c] + y) == if IsJsWhitespace(y[0]) then Collapse(y) else "/" + Collapse(y)
  {
    assert ([c] + y)[1..] == y && ([c] + y)[1] == y[0];
  }

  lemma CollapseNonWhitespace(c: char, t: string)
    requires !IsJsWhitespace(c)
    ensures Collapse([c] + t) == [c] + Collapse(t)
  {
    assert ([c] + t)[0] == c && ([c] + t)[1..] == t;
  }

  lemma CollapseKeepsStep(a: string, b: string)
    requires a != [] && !IsJsWhitespace(a[0])
    requires Collapse(a[1..] + b) == a[1..] + Collapse(b)
    ensures Collapse(a + b) == a + Collapse(b)
  {
    var t := a[1..] + b;
    calc {
      Collapse(a + b);
    == { assert a + b == [a[0]] + t; }
      Collapse([a[0]] + t);
    == { CollapseNonWhitespace(a[0], t); }
      [a[0]] + Collapse(t);
    ==
      [a[0]] + (a[1..] + Collapse(b));
    == { assert [a[0]] + a[1..] == a; }
      a + Collapse(b);
    }
  }

  /** Text without whitespace passes through the collapse unchanged. */
  lemma {:induction false} CollapseKeeps(a: string, b: string)
    requires forall i :: 0 <= i < |a| ==> !IsJsWhitespace(a[i])
    ensures Collapse(a + b) == a + Collapse(b)
  {
    if a == [] {
      assert a + b == b;
    } else {
      CollapseKeeps(a[1..], b);
      CollapseKeepsStep(a, b);
    }
  }

  lemma CollapseRun(b: string)
    requires b == [] || !IsJsWhitespace(b[0])
    ensures Collapse(" " + b) == "/" + Collapse(b)
  {
    assert (" " + b)[1..] == b;
  }

  /** Two whitespace-free words with one space between them are joined by "/". */
  lemma CollapseOneGap(a: string, b: string)
    requires forall i :: 0 <= i < |a| ==> !IsJsWhitespace(a[i])
    requires forall i :: 0 <= i < |b| ==> !IsJsWhitespace(b[i])
    ensures Collapse(a + " " + b) == a + "/" + b
  {
    var t := " " + b;
    assert Collapse(t) == "/" + b by {
      assert b == [] || !IsJsWhitespace(b[0]);
      CollapseRun(b);
      CollapseKeeps(b, []);
      assert b + [] == b;
    }
    assert a + " " + b == a + t;
    CollapseKeeps(a, t);
    JoinGap(a, Collapse(t), b);
  }

  /** After a character that is not whitespace, the collapse of a concatenation is the concatenation of the collapses. */
  lemma {:induction false} CollapseAppend(a: string, t: string)
    requires a == [] || !IsJsWhitespace(a[|a| - 1])
    ensures Collapse(a + t) == Collapse(a) + Collapse(t)
  {
    if a == [] {
      assert a + t == t;
    } else {
      var x := a[1..];
      assert a == [a[0]] + x && a + t == [a[0]] + (x + t);
      assert x == [] || x[|x| - 1] == a[|a| - 1];
      CollapseAppend(x, t);
      if IsJsWhitespace(a[0]) {
        CollapseWhitespaceStep(a[0], x, t);
      } else {
        CollapseNonWhitespace(a[0], x + t);
        CollapseNonWhitespace(a[0], x);
      }
    }
  }

  /** A non-empty whitespace run followed by text that does not start with whitespace becomes one "/". */
  lemma {:induction false} CollapseRunAll(w: string, b: string)
    requires w != [] && forall i :: 0 <= i < |w| ==> IsJsWhitespace(w[i])
    requires b == [] || !IsJsWhitespace(b[0])
    ensures Collapse(w + b) == "/" + Collapse(b)
  {
    var t := w + b;
    assert t[0] == w[0] && t[1..] == w[1..] + b;
    if |w| == 1 {
      assert w[1..] + b == b;
    } else {
      assert t[1] == w[1];
      CollapseRunAll(w[1..], b);
    }
  }

  /**
   * Every maximal run of whitespace becomes exactly one "/", and the text on
   * either side is collapsed on its own.
   */
  lemma CollapseGap(a: string, w: string, b: string)
    requires a == [] || !IsJsWhitespace(a[|a| - 1])
    requires w != [] && forall i :: 0 <= i < |w| ==> IsJsWhitespace(w[i])
    requires b == [] || !IsJsWhitespace(b[0])
    ensures Collapse(a + w + b) == Collapse(a) + "/" + Collapse(b)
  {
    var t := w + b;
    assert Collapse(t) == "/" + Collapse(b) by {
      CollapseRunAll(w, b);
    }
    assert Collapse(a + w + b) == Collapse(a) + Collapse(t) by {
      AppendAssoc(a, w, b);
      CollapseAppend(a, t);
    }
    JoinGap(Collapse(a), Collapse(t), Collapse(b));
  }

  lemma JoinGap(x: string, y: string, z: string)
    requires y == "/" + z
    ensures x + y == x + "/" + z
  {
  }

  lemma {:induction false} RemoveCommasKeeps(s: string)
    requires ',' !in s
    ensures RemoveCommas(s) == s
  {
    if s != [] {
      assert ',' !in s[1..];
      RemoveCommasKeeps(s[1..]);
      assert [s[0]] + s[1..] == s;
    }
  }

  /** One comma between comma-free text is dropped. */
  lemma {:induction false} RemoveOneComma(a: string, b: string)
    requires ',' !in a && ',' !in b
    ensures RemoveCommas(a + [','] + b) == a + b
  {
    if a == [] {
      EmptyLeft(a, [',']);
      EmptyLeft(a, b);
      RemoveCommasComma(b);
      RemoveCommasKeeps(b);
    } else {
      var x := a[1..];
      var t := x + [','] + b;
      HeadSplit(a, [','], b);
      RemoveCommasCons(a[0], t);
      assert ',' !in x;
      RemoveOneComma(x, b);
      HeadThenRest(a, b);
    }
  }

  lemma RemoveCommasComma(t: string)
    ensures RemoveCommas([','] + t) == RemoveCommas(t)
  {
    assert ([','] + t)[0] == ',' && ([','] + t)[1..] == t;
  }

  lemma RemoveCommasCons(c: char, t: string)
    requires c != ','
    ensures RemoveCommas([c] + t) == [c] + RemoveCommas(t)
  {
    assert ([c] + t)[0] == c && ([c] + t)[1..] == t;
  }

  /** No letter, whitespace or comma: what the rewrite leaves untouched. */
  predicate Plain(s: string)
  {
    forall i :: 0 <= i < |s| ==> !IsAsciiLetter(s[i]) && !IsJsWhitespace(s[i]) && s[i] != ','
  }

  lemma PlainHasNoComma(s: string)
    requires Plain(s)
    ensures ',' !in s
  {
    assert forall i :: 0 <= i < |s| ==> s[i] != ',';
  }

  lemma StripDay(rest: string, day: string, year: string)
    requires Plain(day) && Plain(year) && rest == " " + day + ", " + year
    ensures StripLetters(rest) == rest
  {
    forall i | 0 <= i < |rest|
      ensures !IsAsciiLetter(rest[i])
    {
      if 1 <= i < 1 + |day| {
        assert rest[i] == day[i - 1];
      } else if 1 + |day| + 2 <= i {
        assert rest[i] == year[i - |day| - 3];
      }
    }
    StripLettersKeeps(rest);
  }

  lemma TrimDay(day: string, year: string)
    requires Plain(day) && Plain(year) && year != []
    ensures Trim(" " + day + ", " + year) == day + ", " + year
  {
    var x := day + ", " + year;
    assert " " + day + ", " + year == " " + x;
    assert x[|x| - 1] == year[|year| - 1];
    assert x[0] == if day == [] then ',' else day[0];
    TrimLeading(" ", x);
  }

  lemma CollapseDay(day: string, year: string)
    requires Plain(day) && Plain(year)
    ensures Collapse(day + ", " + year) == day + ",/" + year
  {
    var a := day + ",";
    assert forall i :: 0 <= i < |a| ==> !IsJsWhitespace(a[i]) by {
      assert forall i :: 0 <= i < |day| ==> a[i] == day[i];
    }
    assert day + ", " + year == a + " " + year;
    CollapseOneGap(a, year);
    assert a + "/" + year == day + ",/" + year;
  }

  lemma CommaDay(day: string, year: string)
    requires Plain(day) && Plain(year)
    ensures RemoveCommas(day + ",/" + year) == day + "/" + year
  {
    PlainHasNoComma(day);
    PlainHasNoComma(year);
    assert ',' !in "/" + year by {
      assert forall i :: 1 <= i < |"/" + year| ==> ("/" + year)[i] == year[i - 1];
    }
    assert day + ",/" + year == day + [','] + ("/" + year);
    RemoveOneComma(day, "/" + year);
  }

  /**
   * A long date "Month D, Y" becomes "D/Y": the month's letters go, the
   * leading space is trimmed, the space after the comma becomes "/", and the
   * comma goes.
   */
  lemma LongDateForm(month: string, day: string, year: string)
    requires forall i :: 0 <= i < |month| ==> IsAsciiLetter(month[i])
    requires Plain(day) && Plain(year) && year != []
    ensures LongDateToSlashes(month + " " + day + ", " + year) == day + "/" + year
  {
    var rest := " " + day + ", " + year;
    var s := month + " " + day + ", " + year;
    assert s == month + rest;
    assert StripLetters(s) == rest by {
      StripLettersAppend(month, rest);
      StripLettersDrops(month);
      StripDay(rest, day, year);
    }
    TrimDay(day, year);
    assert Collapse(day + ", " + year) == day + ",/" + year by {
      CollapseDay(day, year);
    }
    CommaDay(day, year);
  }

  lemma DigitsArePlain(s: string)
    requires AllDigits(s)
    ensures Plain(s) && '/' !in s
  {
    assert forall i :: 0 <= i < |s| ==> s[i] != '/';
  }

  /** "D/Y" has one slash, too few for an M/D/Y date. */
  lemma DayYearOneSlash(day: string, year: string)
    requires '/' !in day && '/' !in year
    ensures Count(day + "/" + year, '/') == 1
  {
    assert Count("/", '/') == 1 by {
      assert "/"[1..] == [];
    }
    CountAppend(day, "/", '/');
    CountAppend(day + "/", year, '/');
  }

  /**
   * Without a formatted date, a long date with a numeric day and year
   * reaches the grid as "D/Y", so the grid computes with today's date.
   */
  lemma LongDateFallsBackToToday(month: string, day: string, year: string, today: Today)
    requires forall i :: 0 <= i < |month| ==> IsAsciiLetter(month[i])
    requires AllDigits(day) && AllDigits(year) && year != []
    ensures ParseBirthDate(GridBirthDate(month + " " + day + ", " + year, None), today) == TodayDate(today)
  {
    DigitsArePlain(day);
    DigitsArePlain(year);
    LongDateForm(month, day, year);
    DayYearOneSlash(day, year);
  }

  /** The default long date becomes "15/1985". */
  lemma DefaultLongDate()
    ensures LongDateToSlashes(DefaultBirthDate) == "15/1985"
  {
    DefaultLongDateParts(DefaultBirthDate, "January", "15", "1985");
  }

  /** The same with the date's parts as parameters, so that the literal is not evaluated. */
  lemma DefaultLongDateParts(s: string, month: string, day: string, year: string)
    requires s == "January 15, 1985" && month == "January" && day == "15" && year == "1985"
    ensures LongDateToSlashes(s) == "15/1985"
  {
    DefaultDateParts(s, month, day, year);
    DigitsArePlain(day);
    DigitsArePlain(year);
    LongDateForm(month, day, year);
    DayThenYear(day, year);
  }

  /**
   * The default date splits into a month of letters and digit-only day and year.
   * Literals are parameters here: on a literal argument the verifier unfolds the recursive functions without bound.
   */
  lemma DefaultDateParts(s: string, month: string, day: string, year: string)
    requires s == "January 15, 1985" && month == "January" && day == "15" && year == "1985"
    ensures s == month + " " + day + ", " + year
    ensures forall i :: 0 <= i < |month| ==> IsAsciiLetter(month[i])
    ensures AllDigits(day) && AllDigits(year)
  {
  }

  /** Literals are parameters here: on a literal argument the verifier unfolds the recursive functions without bound. */
  lemma DayThenYear(day: string, year: string)
    requires day == "15" && year == "1985"
    ensures day + "/" + year == "15/1985"
  {
  }

  /**
   * "15/1985" has only two parts, so without a formatted date the grid
   * ignores the default birth date and computes with today's date.
   */
  lemma DefaultDateFallsBackToToday(today: Today)
    ensures ParseBirthDate(GridBirthDate(DefaultBirthDate, None), today) == TodayDate(today)
  {
    var month, day, year := "January", "15", "1985";
    assert DefaultBirthDate == month + " " + day + ", " + year;
    assert forall i :: 0 <= i < |month| ==> IsAsciiLetter(month[i]);
    LongDateFallsBackToToday(month, day, year, today);
  }

  // ------------------------------------------------------ chart segments

  datatype NumerologyNumber = NumerologyNumber(name: string, value: int)

  datatype Segment = Segment(id: string, value: int, caption: string, color: string)

  /**
   * `name.toLowerCase().replace(" ", "-")`: lower-cased, with only the first
   * space turned into "-"; a space survives exactly when the name had two.
   */
  function SegmentId(name: string): (id: string)
    ensures |id| == |name|
    ensures forall i :: 0 <= i < |name| ==> id[i] == if i == IndexOf(name, ' ') then '-' else ToLower(name[i])
    ensures ' ' in id <==> Count(name, ' ') >= 2
  {
    LowerCaseCount(name);
    ReplaceFirstCount(LowerCase(name), ' ', '-');
    ReplaceFirst(LowerCase(name), ' ', '-')
  }

  const DefaultColor: string := "#3B82F6"

  /** Three names have their own colour; every other name gets the default one. */
  function SegmentColor(name: string): (color: string)
    ensures color == DefaultColor <==> name != "Life Path" && name != "Expression" && name != "Soul Urge"
  {
    if name == "Life Path" then "#6366F1"
    else if name == "Expression" then "#EC4899"
    else if name == "Soul Urge" then "#A855F7"
    else DefaultColor
  }

  /** One segment per number, in order, captioned with the number's name. */
  function Segments(numbers: seq<NumerologyNumber>): (r: seq<Segment>)
    ensures |r| == |numbers|
    ensures forall i :: 0 <= i < |numbers| ==>
      r[i].caption == numbers[i].name && r[i].value == numbers[i].value && r[i].id == SegmentId(numbers[i].name)
      && r[i].color == SegmentColor(numbers[i].name)
  {
    seq(|numbers|, i requires 0 <= i < |numbers| =>
      Segment(SegmentId(numbers[i].name), numbers[i].value, numbers[i].name, SegmentColor(numbers[i].name)))
  }

  /** The four numbers the screen shows when it is given none. */
  const DefaultNumbers: seq<NumerologyNumber> := [
    NumerologyNumber("Life Path", 7),
    NumerologyNumber("Expression", 3),
    NumerologyNumber("Soul Urge", 9),
    NumerologyNumber("Personality", 5)
  ]

  lemma IndexOfGap(a: string, b: string)
    requires ' ' !in a
    ensures IndexOf(a + " " + b, ' ') == |a|
  {
    var s := a + " " + b;
    assert s[|a|] == ' ';
    assert s[..|a|] == a;
  }

  /** In a name of two words, the space between them becomes "-". */
  lemma SegmentIdOfTwoWords(a: string, b: string)
    requires ' ' !in a
    ensures SegmentId(a + " " + b) == LowerCase(a) + "-" + LowerCase(b)
  {
    var s := a + " " + b;
    IndexOfGap(a, b);
    var id := SegmentId(s);
    var e := LowerCase(a) + "-" + LowerCase(b);
    forall i | 0 <= i < |s|
      ensures id[i] == e[i]
    {
      if i < |a| {
        assert s[i] == a[i] && e[i] == LowerCase(a)[i];
      } else if i > |a| {
        assert s[i] == b[i - |a| - 1] && e[i] == LowerCase(b)[i - |a| - 1];
      }
    }
  }

  /**
   * The chart segment of Life Path gets the id "life-path". The words are
   * parameters, and the helpers below take them one step at a time, so that
   * no function is evaluated on the literal itself.
   */
  lemma LifePathSegmentId(name: string, a: string, b: string)
    requires a == "Life" && b == "Path" && name == a + " " + b
    ensures SegmentId(name) == "life-path"
  {
    NoSpaceInLife(a);
    SegmentIdOfTwoWords(a, b);
    LowerLife(a);
    LowerPath(b);
    LifeDashPath(LowerCase(a), LowerCase(b));
  }

  /** Literals are parameters here: on a literal argument the verifier unfolds the recursive functions without bound. */
  lemma NoSpaceInLife(a: string)
    requires a == "Life"
    ensures ' ' !in a
  {
    assert forall i :: 0 <= i < |a| ==> a[i] != ' ';
  }

  /** Literals are parameters here: on a literal argument the verifier unfolds the recursive functions without bound. */
  lemma LowerLife(a: string)
    requires a == "Life"
    ensures LowerCase(a) == "life"
  {
  }

  /** Literals are parameters here: on a literal argument the verifier unfolds the recursive functions without bound. */
  lemma LowerPath(b: string)
    requires b == "Path"
    ensures LowerCase(b) == "path"
  {
  }

  /** Literals are parameters here: on a literal argument the verifier unfolds the recursive functions without bound. */
  lemma LifeDashPath(x: string, y: string)
    requires x == "life" && y == "path"
    ensures x + "-" + y == "life-path"
  {
  }

  // ------------------------------------------------- symbolic panel inputs

  /** `numbers.find(n => n.name === name)`, as the index of the first match or -1. */
  function FindByName(numbers: seq<NumerologyNumber>, name: string): (k: int)
    ensures -1 <= k < |numbers|
    ensures k == -1 <==> forall i :: 0 <= i < |numbers| ==> numbers[i].name != name
    ensures k >= 0 ==> numbers[k].name == name && forall j :: 0 <= j < k ==> numbers[j].name != name
  {
    if numbers == [] then -1
    else if numbers[0].name == name then 0
    else
      var k := FindByName(numbers[1..], name);
      if k == -1 then -1 else k + 1
  }

  /**
   * `numbers.find(n => n.name === name)?.value || fallback`: the value of the
   * first entry with that name, unless there is none or its value is 0.
   */
  function SymbolicInput(numbers: seq<NumerologyNumber>, name: string, fallback: int): (r: int)
    ensures (forall i :: 0 <= i < |numbers| ==> numbers[i].name != name) ==> r == fallback
    ensures forall i :: 0 <= i < |numbers| && numbers[i].name == name && (forall j :: 0 <= j < i ==> numbers[j].name != name) ==>
      r == if numbers[i].value != 0 then numbers[i].value else fallback
    ensures fallback != 0 ==> r != 0
  {
    var k := FindByName(numbers, name);
    if k >= 0 && numbers[k].value != 0 then numbers[k].value else fallback
  }

  /** The four numbers handed to the symbolic panel, with defaults 7, 3, 9 and 5. */
  function SymbolicInputs(numbers: seq<NumerologyNumber>): (s: SymbolicNumbers)
    ensures s.lifePath != 0 && s.expression != 0 && s.soulUrge != 0 && s.personality != 0
  {
    SymbolicNumbers(
      SymbolicInput(numbers, "Life Path", 7),
      SymbolicInput(numbers, "Expression", 3),
      SymbolicInput(numbers, "Soul Urge", 9),
      SymbolicInput(numbers, "Personality", 5))
  }

  lemma SymbolicInputIsDigit(numbers: seq<NumerologyNumber>, name: string, fallback: int)
    requires forall i :: 0 <= i < |numbers| ==> 0 <= numbers[i].value <= 9
    requires 1 <= fallback <= 9
    ensures 1 <= SymbolicInput(numbers, name, fallback) <= 9
  {
    var k := FindByName(numbers, name);
    assert k >= 0 ==> 0 <= numbers[k].value <= 9;
  }

  /**
   * When every value given is a digit 0..9, the panel shows all four
   * symbols: a 0 falls back to the default, and the defaults are digits.
   */
  lemma FourSymbolsForDigitValues(numbers: seq<NumerologyNumber>)
    requires forall i :: 0 <= i < |numbers| ==> 0 <= numbers[i].value <= 9
    ensures |UserSymbols(SymbolicInputs(numbers))| == 4
  {
    SymbolicInputIsDigit(numbers, "Life Path", 7);
    SymbolicInputIsDigit(numbers, "Expression", 3);
    SymbolicInputIsDigit(numbers, "Soul Urge", 9);
    SymbolicInputIsDigit(numbers, "Personality", 5);
    FourSymbolsInRange(SymbolicInputs(numbers));
  }

  lemma FourSymbolsInRange(s: SymbolicNumbers)
    requires 1 <= s.lifePath <= 9 && 1 <= s.expression <= 9 && 1 <= s.soulUrge <= 9 && 1 <= s.personality <= 9
    ensures |UserSymbols(s)| == 4
  {
    var xs := [s.lifePath, s.expression, s.soulUrge, s.personality];
    assert |InRange(xs)| == 4 by {
      InRangeAll(xs);
    }
    var r := UserSymbols(s);
    assert |r| == |NumbersOf(r)| == |InRange(xs)|;
  }

  /** With no numbers, or the built-in list, the panel gets 7, 3, 9 and 5. */
  lemma DefaultSymbolicInputs()
    ensures SymbolicInputs([]) == SymbolicNumbers(7, 3, 9, 5)
    ensures SymbolicInputs(DefaultNumbers) == SymbolicNumbers(7, 3, 9, 5)
  {
    var d := DefaultNumbers;
    assert SymbolicInput(d, "Life Path", 7) == 7 by {
      assert d[0].name == "Life Path";
    }
    assert SymbolicInput(d, "Expression", 3) == 3 by {
      assert d[1].name == "Expression" && d[0].name != "Expression";
    }
    assert SymbolicInput(d, "Soul Urge", 9) == 9 by {
      assert d[2].name == "Soul Urge" && d[0].name != "Soul Urge" && d[1].name != "Soul Urge";
    }
    assert SymbolicInput(d, "Personality", 5) == 5 by {
      assert d[3].name == "Personality";
      assert d[0].name != "Personality" && d[1].name != "Personality" && d[2].name != "Personality";
    }
  }
}
