/**
 * The page: it composes the display name and the "M/D/Y" date string from
 * the submitted form, and moves between showing the form, the loading
 * animation and the results.
 */
module Home {
  import opened JsText
  import opened GridCalculation
  import opened ResultsDisplay
  import InputForm

  datatype CalcState = Input | Calculating | Results

  /** What the page keeps about the submitted person. */
  datatype UserData = UserData(name: string, birthDate: string, formattedDate: string)

  /**
   * The UTC year, month (0-based) and day read from `new Date(birthDate)`,
   * or an invalid date, whose parts all read as NaN.
   */
  datatype JsDate = InvalidDate | ValidDate(year: nat, month0: nat, day: nat)
  {
    /** A date object only ever reports a month in 0..11 and a day in 1..31. */
    predicate WellFormed()
    {
      ValidDate? ==> month0 <= 11 && 1 <= day <= 31
    }
  }

  /** The display name: first, then the middle name and a space when it is non-empty, then last. */
  function ComposeName(first: string, middle: string, last: string): (name: string)
    ensures |name| == |first| + 1 + (if middle == "" then 0 else |middle| + 1) + |last|
    ensures Count(name, ' ') == Count(first, ' ') + Count(middle, ' ') + Count(last, ' ') + (if middle == "" then 1 else 2)
  {
    var mid := if middle != "" then middle + " " else "";
    assert Count(first + " " + mid + last, ' ')
        == Count(first, ' ') + Count(middle, ' ') + Count(last, ' ') + (if middle == "" then 1 else 2) by {
      if middle != "" {
        CountGap(first, middle + " " + last);
        CountGap(middle, last);
        assert first + " " + mid + last == first + " " + (middle + " " + last);
      } else {
        CountGap(first, last);
        assert first + " " + mid + last == first + " " + last;
      }
    }
    first + " " + mid + last
  }

  lemma ComposeNameShape(first: string, middle: string, last: string)
    ensures middle == "" ==> ComposeName(first, middle, last) == first + " " + last
    ensures middle != "" ==> ComposeName(first, middle, last) == first + " " + (middle + " " + last)
  {
    if middle == "" {
      assert first + " " + "" + last == first + " " + last;
    } else {
      assert first + " " + (middle + " ") + last == first + " " + (middle + " " + last);
    }
  }

  lemma CountGap(a: string, b: string)
    ensures Count(a + " " + b, ' ') == Count(a, ' ') + 1 + Count(b, ' ')
  {
    CountAppend(a, " ", ' ');
    CountAppend(a + " ", b, ' ');
    assert " "[1..] == [];
  }

  lemma JoinThree(a: string, b: string, c: string)
    ensures Join([a, b, c], "/") == a + "/" + b + "/" + c
  {
    assert [a, b, c][1..] == [b, c] && [b, c][1..] == [c];
    assert Join([c], "/") == c;
    assert Join([b, c], "/") == b + "/" + c;
  }

  /** Three fields without "/" joined by "/" split back into the same three. */
  lemma SplitThreeFields(a: string, b: string, c: string)
    requires '/' !in a && '/' !in b && '/' !in c
    ensures Split(a + "/" + b + "/" + c, '/') == [a, b, c]
  {
    JoinThree(a, b, c);
    SplitJoin([a, b, c], '/');
  }

  lemma DigitsHaveNoSlash(s: string)
    requires AllDigits(s)
    ensures '/' !in s
  {
    assert forall k :: 0 <= k < |s| ==> s[k] != '/';
  }

  /** `${month + 1}/${day}/${year}`: three "/"-separated fields. */
  function FormattedDate(date: JsDate): (s: string)
    ensures Count(s, '/') == 2
    ensures date.ValidDate? ==> Split(s, '/') == [ToDecimal(date.month0 + 1), ToDecimal(date.day), ToDecimal(date.year)]
    ensures date.InvalidDate? ==> Split(s, '/') == ["NaN", "NaN", "NaN"]
  {
    match date
    case InvalidDate =>
      assert '/' !in "NaN";
      SplitThreeFields("NaN", "NaN", "NaN");
      "NaN" + "/" + "NaN" + "/" + "NaN"
    case ValidDate(year, month0, day) =>
      var m, d, y := ToDecimal(month0 + 1), ToDecimal(day), ToDecimal(year);
      DigitsHaveNoSlash(m);
      DigitsHaveNoSlash(d);
      DigitsHaveNoSlash(y);
      SplitThreeFields(m, d, y);
      m + "/" + d + "/" + y
  }

  // ------------------------------------------------------------ the page

  /**
   * The page's state. `pendingTimers` counts the started timers that have not
   * yet fired; the form, the results and their buttons exist only in the
   * states that render them.
   */
  class Page {
    var calculationState: CalcState
    var userData: Option<UserData>
    var pendingTimers: nat

    /** Data is kept exactly while the page is not back at the form, and a timer runs only while calculating. */
    ghost predicate Valid()
      reads this
    {
      && (calculationState == Input <==> userData.None?)
      && (calculationState == Calculating <==> pendingTimers == 1)
      && pendingTimers <= 1
    }

    constructor ()
      ensures Valid()
      ensures calculationState == Input && userData == None && pendingTimers == 0
    {
      calculationState := Input;
      userData := None;
      pendingTimers := 0;
    }

    /**
     * `calculateNumerology`, the form's submit handler (the form is shown
     * only in the input state): stores the composed name, the long date and
     * the formatted date, moves to calculating and starts the timer.
     */
    method CalculateNumerology(data: InputForm.FormData, date: JsDate, longDate: string)
      requires Valid() && calculationState == Input
      requires date.WellFormed()
      modifies this
      ensures Valid()
      ensures calculationState == Calculating && pendingTimers == old(pendingTimers) + 1
      ensures userData == Some(UserData(ComposeName(data.firstName, data.middleName, data.lastName), longDate, FormattedDate(date)))
    {
      userData := Some(UserData(ComposeName(data.firstName, data.middleName, data.lastName), longDate, FormattedDate(date)));
      calculationState := Calculating;
      pendingTimers := pendingTimers + 1;
    }

    /** The timer callback: shows the results, whatever the state. */
    method TimerFired()
      requires Valid() && pendingTimers > 0
      modifies this
      ensures Valid()
      ensures calculationState == Results && userData == old(userData) && pendingTimers == old(pendingTimers) - 1
    {
      calculationState := Results;
      pendingTimers := pendingTimers - 1;
    }

    /** `handleNewCalculation`, wired to the results screen's button: back to the empty form. */
    method NewCalculation()
      requires Valid() && calculationState == Results
      modifies this
      ensures Valid()
      ensures calculationState == Input && userData == None && pendingTimers == old(pendingTimers)
    {
      calculationState := Input;
      userData := None;
    }

    /** The results screen is rendered only in the results state with data. */
    function ShowsResults(): (shown: bool)
      reads this
      ensures shown ==> userData.Some?
      ensures Valid() ==> (shown <==> calculationState == Results)
    {
      calculationState == Results && userData.Some?
    }

    /** The props the grid tab receives, when the results screen is rendered. */
    function GridInput(): (p: Option<GridProps>)
      reads this
      ensures p.Some? <==> ShowsResults()
      ensures p.Some? && userData.value.formattedDate != "" ==> p.value.birthDate == userData.value.formattedDate
    {
      if ShowsResults() then
        Some(GridPropsFor(userData.value.name, userData.value.birthDate, Some(userData.value.formattedDate)))
      else None
    }
  }

  // ------------------------------------------------ names through the split

  /** Two space-free heads split the same way only when everything agrees. */
  lemma SplitAtFirstSpace(a: string, b: string, c: string, d: string)
    requires ' ' !in a && ' ' !in c
    requires a + " " + b == c + " " + d
    ensures a == c && b == d
  {
    IndexOfGap(a, b);
    IndexOfGap(c, d);
    var s := a + " " + b;
    assert a == s[..|a|] && c == s[..|c|];
    assert b == s[|a| + 1..] && d == s[|c| + 1..];
  }

  /**
   * The results screen gets back the three parts of the composed name exactly
   * when the first and middle names have no space and, without a middle
   * name, the last name has none either.
   */
  lemma SplitComposedName(first: string, middle: string, last: string)
    ensures SplitUserName(ComposeName(first, middle, last)) == NameParts(first, middle, last)
        <==> ' ' !in first && ' ' !in middle && (middle != "" || ' ' !in last)
  {
    if ' ' !in first && ' ' !in middle && (middle != "" || ' ' !in last) {
      SplitComposedNameBack(first, middle, last);
    } else if middle == "" && ' ' !in first && ' ' in last {
      var name := ComposeName(first, middle, last);
      var r := SplitUserName(name);
      assert r != NameParts(first, middle, last) by {
        assert Count(name, ' ') >= 2;
        assert |name| == |r.first| + |r.middle| + |r.last| + 2;
      }
    }
  }

  /** Space-free first and middle names (and last name, without a middle one) come back unchanged. */
  lemma SplitComposedNameBack(first: string, middle: string, last: string)
    requires ' ' !in first && ' ' !in middle && (middle != "" || ' ' !in last)
    ensures SplitUserName(ComposeName(first, middle, last)) == NameParts(first, middle, last)
  {
    var name := ComposeName(first, middle, last);
    var r := SplitUserName(name);
    ComposeNameShape(first, middle, last);
    if middle == "" {
      SplitAtFirstSpace(first, last, r.first, r.last);
    } else {
      assert name == r.first + " " + (r.middle + " " + r.last);
      SplitAtFirstSpace(first, middle + " " + last, r.first, r.middle + " " + r.last);
      SplitAtFirstSpace(middle, last, r.middle, r.last);
    }
  }

  lemma ComposeSplitFewSpaces(userName: string)
    requires Count(userName, ' ') <= 1
    ensures var r := SplitUserName(userName);
      (ComposeName(r.first, r.middle, r.last) == userName) <==> Count(userName, ' ') == 1
  {
    var r := SplitUserName(userName);
    ComposeNameShape(r.first, r.middle, r.last);
    if Count(userName, ' ') == 0 {
      assert |ComposeName(r.first, r.middle, r.last)| == |userName| + 1;
    }
  }

  lemma ComposeThreeParts(first: string, middle: string, last: string, name: string)
    requires name == first + " " + middle + " " + last
    ensures (ComposeName(first, middle, last) == name) <==> middle != ""
  {
    ComposeNameShape(first, middle, last);
    if middle != "" {
      assert first + " " + middle + " " + last == first + " " + (middle + " " + last);
    } else {
      assert |ComposeName(first, middle, last)| + 1 == |name|;
    }
  }

  lemma ComposeSplitManySpaces(userName: string)
    requires Count(userName, ' ') >= 2
    ensures var r := SplitUserName(userName);
      (ComposeName(r.first, r.middle, r.last) == userName) <==> r.middle != ""
  {
    var r := SplitUserName(userName);
    ComposeThreeParts(r.first, r.middle, r.last, userName);
  }

  /**
   * Recomposing the parts the results screen splits off gives the name back
   * exactly when it has one space, or at least two with a non-empty second
   * token.
   */
  lemma ComposeSplitName(userName: string)
    ensures var r := SplitUserName(userName);
      (ComposeName(r.first, r.middle, r.last) == userName)
        <==> (Count(userName, ' ') == 1 || (Count(userName, ' ') >= 2 && r.middle != ""))
  {
    if Count(userName, ' ') <= 1 {
      ComposeSplitFewSpaces(userName);
    } else {
      ComposeSplitManySpaces(userName);
    }
  }

  /** A one-word name comes back from the round trip with a trailing space. */
  lemma OneWordNameGainsSpace(userName: string)
    requires ' ' !in userName
    ensures var r := SplitUserName(userName);
      ComposeName(r.first, r.middle, r.last) == userName + " "
  {
  }

  lemma DoubleSpaceCount(first: string, last: string)
    requires ' ' !in first && ' ' !in last
    ensures Count(first + "  " + last, ' ') == 2
  {
    CountAppend(first + "  ", last, ' ');
    CountAppend(first, "  ", ' ');
    assert Count("  ", ' ') == 2 by {
      assert "  "[1..] == " " && " "[1..] == [];
    }
  }

  lemma SplitDoubleSpace(first: string, last: string)
    requires ' ' !in first && ' ' !in last
    ensures SplitUserName(first + "  " + last) == NameParts(first, "", last)
  {
    DoubleSpaceCount(first, last);
    DoubleSpaceParts(first, last, SplitUserName(first + "  " + last));
  }

  lemma DoubleSpaceParts(first: string, last: string, r: NameParts)
    requires ' ' !in first && ' ' !in last && ' ' !in r.first && ' ' !in r.middle
    requires first + "  " + last == r.first + " " + r.middle + " " + r.last
    ensures r == NameParts(first, "", last)
  {
    var name := first + "  " + last;
    assert name == first + " " + (" " + last);
    assert name == r.first + " " + (r.middle + " " + r.last);
    SplitAtFirstSpace(first, " " + last, r.first, r.middle + " " + r.last);
    assert [] + " " + last == r.middle + " " + r.last;
    SplitAtFirstSpace([], last, r.middle, r.last);
  }

  /** Two words separated by two spaces come back separated by one. */
  lemma DoubleSpaceCollapses(first: string, last: string)
    requires ' ' !in first && ' ' !in last
    ensures var r := SplitUserName(first + "  " + last);
      ComposeName(r.first, r.middle, r.last) == first + " " + last
  {
    SplitDoubleSpace(first, last);
  }

  // ------------------------------------------------ dates through the parse

  /**
   * The grid parses the formatted date back into the month (1-based), day
   * and year it was made from.
   */
  lemma ParseFormattedDate(year: nat, month0: nat, day: nat, today: Today)
    ensures ParseBirthDate(FormattedDate(ValidDate(year, month0, day)), today)
      == BirthDate(Num(month0 + 1), Num(day), Num(year))
  {
    var s := FormattedDate(ValidDate(year, month0, day));
    assert s == ToDecimal(month0 + 1) + "/" + ToDecimal(day) + "/" + ToDecimal(year);
    ParseDecimalDate(month0 + 1, day, year, today);
  }

  /** An invalid date reaches the grid as "NaN/NaN/NaN": every field and the life path are NaN. */
  lemma InvalidDateIsNaN(today: Today)
    ensures ParseBirthDate(FormattedDate(InvalidDate), today) == BirthDate(NaN, NaN, NaN)
    ensures LifePath(ParseBirthDate(FormattedDate(InvalidDate), today)) == NaN
  {
    assert ParseInt("NaN") == NaN by {
      assert !IsDigit("NaN"[0]);
    }
  }

  /**
   * From submit to the grid: a name whose parts have no space, with a
   * non-empty middle name or none, and a valid date reach the grid intact.
   */
  lemma SubmittedDataReachesGrid(data: InputForm.FormData, year: nat, month0: nat, day: nat, longDate: string, today: Today)
    requires ' ' !in data.firstName && ' ' !in data.middleName && ' ' !in data.lastName
    ensures var name := ComposeName(data.firstName, data.middleName, data.lastName);
      var p := GridPropsFor(name, longDate, Some(FormattedDate(ValidDate(year, month0, day))));
      && p.firstName == data.firstName && p.middleName == data.middleName && p.lastName == data.lastName
      && ParseBirthDate(p.birthDate, today) == BirthDate(Num(month0 + 1), Num(day), Num(year))
  {
    SplitComposedName(data.firstName, data.middleName, data.lastName);
    ParseFormattedDate(year, month0, day, today);
    assert FormattedDate(ValidDate(year, month0, day)) != [];
  }
}
