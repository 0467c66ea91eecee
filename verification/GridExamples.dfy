/**
 * Worked values of the grid: the defaults "LAURA" / "JULIA" / "COSTAS PEREZ"
 * born "02/09/1991", and two names that show where the karmic-debt test looks.
 * Each fact is its own small lemma so that no proof unfolds much at once.
 */
module GridExamples {
  import opened JsText
  import opened GridCalculation

  // ------------------------------------------------------------- the dates

  lemma DefaultDateFields()
    ensures DecimalValue("02") == 2 && DecimalValue("09") == 9 && DecimalValue("1991") == 1991
  {
    assert "02"[..1] == "0" && "09"[..1] == "0";
    assert "1991"[..3] == "199" && "199"[..2] == "19" && "19"[..1] == "1";
  }

  lemma DefaultDate(today: Today)
    ensures ParseBirthDate(DefaultProps.birthDate, today) == BirthDate(Num(2), Num(9), Num(1991))
  {
    assert DefaultProps.birthDate == "02" + "/" + "09" + "/" + "1991";
    ParseDigitFields("02", "09", "1991", today);
    DefaultDateFields();
  }

  lemma YearDigitSumOf1991()
    ensures YearDigitSum(Num(1991)) == Num(20)
  {
    DigitSumStep(1991);
    DigitSumStep(199);
    DigitSumStep(19);
  }

  lemma ReduceOf31()
    ensures Reduce(31) == 4
  {
    DigitSumStep(31);
  }

  lemma LifePathOfDefaultDate()
    ensures LifePath(BirthDate(Num(2), Num(9), Num(1991))) == Num(4)
  {
    YearDigitSumOf1991();
    ReduceOf31();
  }

  /** The default birth date "02/09/1991" gives 2 + 9 + 20 = 31, reduced to 4. */
  lemma DefaultLifePath(today: Today)
    ensures LifePath(ParseBirthDate(DefaultProps.birthDate, today)) == Num(4)
  {
    DefaultDate(today);
    LifePathOfDefaultDate();
  }

  lemma NewYear2000Fields()
    ensures DecimalValue("1") == 1 && DecimalValue("2000") == 2000
  {
    assert "2000"[..3] == "200" && "200"[..2] == "20" && "20"[..1] == "2";
  }

  lemma NewYear2000Date(today: Today)
    ensures ParseBirthDate("1/1/2000", today) == BirthDate(Num(1), Num(1), Num(2000))
  {
    assert "1/1/2000" == "1" + "/" + "1" + "/" + "2000";
    ParseDigitFields("1", "1", "2000", today);
    NewYear2000Fields();
  }

  lemma YearDigitSumOf2000()
    ensures YearDigitSum(Num(2000)) == Num(2)
  {
    DigitSumStep(2000);
    DigitSumStep(200);
    DigitSumStep(20);
  }

  /** "1/1/2000" has Life Path 1 + 1 + 2 = 4. */
  lemma NewYear2000LifePath(today: Today)
    ensures LifePath(ParseBirthDate("1/1/2000", today)) == Num(4)
  {
    NewYear2000Date(today);
    YearDigitSumOf2000();
  }

  // ------------------------------------------------------------- the names

  lemma ValuesOfLaura()
    ensures Values("LAURA") == [3, 1, 3, 9, 1]
  {
    var v := Values("LAURA");
    LetterValueCyclic('L'); LetterValueCyclic('A'); LetterValueCyclic('U'); LetterValueCyclic('R');
    assert v[0] == 3 && v[1] == 1 && v[2] == 3 && v[3] == 9 && v[4] == 1;
  }

  lemma ValuesOfJulia()
    ensures Values("JULIA") == [1, 3, 3, 9, 1]
  {
    var v := Values("JULIA");
    LetterValueCyclic('J'); LetterValueCyclic('U'); LetterValueCyclic('L');
    LetterValueCyclic('I'); LetterValueCyclic('A');
    assert v[0] == 1 && v[1] == 3 && v[2] == 3 && v[3] == 9 && v[4] == 1;
  }

  lemma ValuesOfCostas()
    ensures Values("COSTAS ") == [3, 6, 1, 2, 1, 1, 0]
  {
    var v := Values("COSTAS ");
    LetterValueCyclic('C'); LetterValueCyclic('O'); LetterValueCyclic('S');
    LetterValueCyclic('T'); LetterValueCyclic('A'); LetterValueCyclic(' ');
    assert v[0] == 3 && v[1] == 6 && v[2] == 1 && v[3] == 2 && v[4] == 1 && v[5] == 1 && v[6] == 0;
  }

  lemma ValuesOfPerez()
    ensures Values("PEREZ") == [7, 5, 9, 5, 8]
  {
    var v := Values("PEREZ");
    LetterValueCyclic('P'); LetterValueCyclic('E'); LetterValueCyclic('R'); LetterValueCyclic('Z');
    assert v[0] == 7 && v[1] == 5 && v[2] == 9 && v[3] == 5 && v[4] == 8;
  }

  lemma DefaultUpperCase()
    ensures UpperCase("LAURA") == "LAURA" && UpperCase("JULIA") == "JULIA"
    ensures UpperCase("COSTAS PEREZ") == "COSTAS PEREZ"
  {
  }

  lemma DefaultNumbers()
    ensures AllNumbers(DefaultProps) == Values("LAURA") + Values("JULIA") + (Values("COSTAS ") + Values("PEREZ"))
  {
    DefaultUpperCase();
    assert "COSTAS PEREZ" == "COSTAS " + "PEREZ";
    ValuesAppend("COSTAS ", "PEREZ");
  }

  lemma DefaultSums()
    ensures Sum(Values("LAURA")) == 17 && Sum(Values("JULIA")) == 17
    ensures Sum(Values("COSTAS ")) == 14 && Sum(Values("PEREZ")) == 34
  {
    ValuesOfLaura();
    ValuesOfJulia();
    ValuesOfCostas();
    ValuesOfPerez();
  }

  lemma ReduceOf82()
    ensures Reduce(82) == 10
  {
    DigitSumStep(82);
  }

  /** The default name's Expression total is 82, which one reduction leaves at 10, not at 1. */
  lemma DefaultExpression()
    ensures ExpressionTotal(DefaultProps) == 82
    ensures Reduce(ExpressionTotal(DefaultProps)) == 10
  {
    DefaultNumbers();
    var f, m, c, p := Values("LAURA"), Values("JULIA"), Values("COSTAS "), Values("PEREZ");
    SumAppend(c, p);
    SumAppend(f, m);
    SumAppend(f + m, c + p);
    DefaultSums();
    ReduceOf82();
  }

  // ------------------------------------------------------ karmic witnesses

  lemma ShortNameExpression()
    ensures ExpressionTotal(GridProps("DI", "", "", "1/1/2000")) == 13
  {
    assert UpperCase("DI") == "DI";
    var v := Values("DI");
    LetterValueCyclic('D'); LetterValueCyclic('I');
    assert v == [4, 9];
    assert AllNumbers(GridProps("DI", "", "", "1/1/2000")) == v + [] + [];
  }

  lemma ShortNameLetters()
    ensures AllLetters(GridProps("DI", "", "", "1/1/2000")) == "DI"
  {
    assert UpperCase("DI") == "DI";
    assert AllLetters(GridProps("DI", "", "", "1/1/2000")) == "DI" + [] + [];
  }

  lemma ShortNameConsonants()
    ensures Filter("DI", Consonants) == "D"
  {
    assert 'D' in Consonants;
    assert 'I' !in Consonants;
  }

  lemma ValuesOfD()
    ensures Sum(Values("D")) == 4
  {
    LetterValueCyclic('D');
  }

  lemma ShortNameDestiny()
    ensures DestinyTotal(GridProps("DI", "", "", "1/1/2000")) == 4
  {
    ShortNameLetters();
    ShortNameConsonants();
    ValuesOfD();
  }

  lemma ReduceOf13()
    ensures Reduce(13) == 4
  {
    DigitSumStep(13);
  }

  lemma ShortNameScores(p: GridProps, today: Today, currentYear: int)
    requires p == GridProps("DI", "", "", "1/1/2000")
    ensures Calculate(p, today, currentYear).expression == 4
    ensures Calculate(p, today, currentYear).destiny == 4
  {
    ShortNameExpression();
    ReduceOf13();
    ShortNameDestiny();
  }

  lemma ShortNameLifePath(p: GridProps, today: Today, currentYear: int)
    requires p == GridProps("DI", "", "", "1/1/2000")
    ensures Calculate(p, today, currentYear).lifePath == Num(4)
  {
    NewYear2000LifePath(today);
  }

  lemma ShortNameNotFlagged(p: GridProps, today: Today, currentYear: int)
    requires p == GridProps("DI", "", "", "1/1/2000")
    ensures !KarmicDebt(Calculate(p, today, currentYear))
  {
    ShortNameScores(p, today, currentYear);
    ShortNameLifePath(p, today, currentYear);
    SingleDigitScoresNotKarmic(Calculate(p, today, currentYear));
  }

  lemma SingleDigitScoresNotKarmic(g: Grid)
    requires g.lifePath.Num? && g.lifePath.n <= 9 && g.expression <= 9 && g.destiny <= 9
    ensures !KarmicDebt(g)
  {
  }

  /** A raw Expression total of 13 is not flagged: the test sees the reduced 4. */
  lemma KarmicIgnoresRawTotals(p: GridProps, today: Today, currentYear: int)
    requires p == GridProps("DI", "", "", "1/1/2000")
    ensures ExpressionTotal(p) == 13
    ensures !KarmicDebt(Calculate(p, today, currentYear))
  {
    ShortNameExpression();
    ShortNameNotFlagged(p, today, currentYear);
  }

  lemma ValuesOfLongName()
    ensures Values("ZZZZZZA") == [8, 8, 8, 8, 8, 8, 1]
  {
    var v := Values("ZZZZZZA");
    LetterValueCyclic('Z'); LetterValueCyclic('A');
    assert v[0] == 8 && v[1] == 8 && v[2] == 8 && v[3] == 8 && v[4] == 8 && v[5] == 8 && v[6] == 1;
  }

  lemma LongNameNumbers(p: GridProps)
    requires p == GridProps("ZZZZZZA", "", "", "1/1/2000")
    ensures AllNumbers(p) == Values("ZZZZZZA")
  {
    assert UpperCase(p.firstName) == "ZZZZZZA";
    assert UpperCase(p.lastName) == [];
    assert MiddleCalc(p) == None;
    assert Values([]) == [];
    assert AllNumbers(p) == Values("ZZZZZZA") + [] + [];
  }

  lemma LongNameTotal()
    ensures ExpressionTotal(GridProps("ZZZZZZA", "", "", "1/1/2000")) == 49
  {
    LongNameNumbers(GridProps("ZZZZZZA", "", "", "1/1/2000"));
    ValuesOfLongName();
  }

  lemma ReduceOf49()
    ensures Reduce(49) == 13
  {
    DigitSumStep(49);
  }

  /** A raw Expression total of 49 reduces to 13 and is flagged. */
  lemma KarmicFlagsReducedThirteen(today: Today, currentYear: int)
    ensures ExpressionTotal(GridProps("ZZZZZZA", "", "", "1/1/2000")) == 49
    ensures KarmicDebt(Calculate(GridProps("ZZZZZZA", "", "", "1/1/2000"), today, currentYear))
  {
    LongNameTotal();
    ReduceOf49();
  }
}
