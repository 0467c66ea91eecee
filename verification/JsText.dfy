/**
 * The few JavaScript string and number primitives that the numerology
 * screens rely on: ASCII case mapping, `split` / `join` on one character,
 * `Number.prototype.toString` for non-negative integers, `parseInt`,
 * and the whitespace class shared by `trim` and the regular expression `\s`.
 */
module JsText {

  datatype Option<+T> = None | Some(value: T)

  /** A JavaScript number as it arises in this program: an integer, or NaN. */
  datatype JsNum = NaN | Num(n: int)

  /** `a + b` on numbers: NaN absorbs everything. */
  function Plus(a: JsNum, b: JsNum): (r: JsNum)
    ensures r.Num? <==> a.Num? && b.Num?
    ensures r.Num? ==> r.n - a.n == b.n
  {
    if a.Num? && b.Num? then Num(a.n + b.n) else NaN
  }

  // ---------------------------------------------------------------- characters

  predicate IsDigit(c: char) { '0' <= c <= '9' }

  predicate AllDigits(s: string) { forall i :: 0 <= i < |s| ==> IsDigit(s[i]) }

  predicate IsAsciiLetter(c: char) { 'A' <= c <= 'Z' || 'a' <= c <= 'z' }

  /** `Number(c)` for a one-character digit string. */
  function DigitValue(c: char): (d: nat)
    requires IsDigit(c)
    ensures d < 10
  {
    c as int - '0' as int
  }

  function DigitChar(d: nat): (c: char)
    requires d < 10
    ensures IsDigit(c) && DigitValue(c) == d
  {
    ('0' as int + d) as char
  }

  /** `toUpperCase` restricted to ASCII. */
  function ToUpper(c: char): char
  {
    if 'a' <= c <= 'z' then (c as int - 32) as char else c
  }

  /** `toLowerCase` restricted to ASCII. */
  function ToLower(c: char): char
  {
    if 'A' <= c <= 'Z' then (c as int + 32) as char else c
  }

  function UpperCase(s: string): (r: string)
    ensures |r| == |s|
    ensures forall i :: 0 <= i < |s| ==> r[i] == ToUpper(s[i])
  {
    seq(|s|, i requires 0 <= i < |s| => ToUpper(s[i]))
  }

  function LowerCase(s: string): (r: string)
    ensures |r| == |s|
    ensures forall i :: 0 <= i < |s| ==> r[i] == ToLower(s[i])
  {
    seq(|s|, i requires 0 <= i < |s| => ToLower(s[i]))
  }

  /** The characters that `String.prototype.trim` removes and `\s` matches. */
  predicate IsJsWhitespace(c: char)
  {
    || c == ' ' || c == '\t' || c == '\n' || c == '\r'
    || c == '\U{000B}' || c == '\U{000C}' || c == '\U{00A0}' || c == '\U{1680}'
    || ('\U{2000}' <= c <= '\U{200A}')
    || c == '\U{2028}' || c == '\U{2029}' || c == '\U{202F}' || c == '\U{205F}'
    || c == '\U{3000}' || c == '\U{FEFF}'
  }

  // ---------------------------------------------------------- count, index

  /** Number of occurrences of `c` in `s`. */
  function Count(s: string, c: char): (n: nat)
    ensures n <= |s|
    ensures n == 0 <==> c !in s
  {
    if s == [] then 0
    else (if s[0] == c then 1 else 0) + Count(s[1..], c)
  }

  lemma {:induction false} CountAppend(a: string, b: string, c: char)
    ensures Count(a + b, c) == Count(a, c) + Count(b, c)
  {
    if a == [] {
      assert a + b == b;
    } else {
      assert (a + b)[1..] == a[1..] + b;
      CountAppend(a[1..], b, c);
    }
  }

  /** `s.indexOf(c)`: the first position of `c`, or -1. */
  function IndexOf(s: string, c: char): (k: int)
    ensures -1 <= k < |s|
    ensures k == -1 <==> c !in s
    ensures k >= 0 ==> s[k] == c && c !in s[..k]
  {
    if s == [] then -1
    else if s[0] == c then 0
    else
      var k := IndexOf(s[1..], c);
      assert k >= 0 ==> s[1..][..k] == s[1..k + 1];
      if k == -1 then -1 else k + 1
  }

  /** `s.replace(from, to)` with a one-character pattern: only the first occurrence changes. */
  function ReplaceFirst(s: string, from: char, to: char): (r: string)
    ensures |r| == |s|
    ensures forall i :: 0 <= i < |s| ==> r[i] == if i == IndexOf(s, from) then to else s[i]
  {
    if s == [] then []
    else if s[0] == from then [to] + s[1..]
    else [s[0]] + ReplaceFirst(s[1..], from, to)
  }

  lemma {:induction false} ReplaceFirstCount(s: string, from: char, to: char)
    requires from != to
    ensures Count(ReplaceFirst(s, from, to), from) == if from in s then Count(s, from) - 1 else Count(s, from)
  {
    if s != [] {
      var r := ReplaceFirst(s, from, to);
      if s[0] == from {
        assert r[1..] == s[1..];
      } else {
        assert r[1..] == ReplaceFirst(s[1..], from, to);
        assert from in s <==> from in s[1..];
        ReplaceFirstCount(s[1..], from, to);
      }
    }
  }

  /** ASCII lower-casing leaves every space where it was. */
  lemma {:induction false} LowerCaseCount(s: string)
    ensures Count(LowerCase(s), ' ') == Count(s, ' ')
    ensures IndexOf(LowerCase(s), ' ') == IndexOf(s, ' ')
  {
    if s != [] {
      assert LowerCase(s)[1..] == LowerCase(s[1..]);
      LowerCaseCount(s[1..]);
    }
  }

  // ---------------------------------------------------------- split / join

  /** `parts.join(sep)`. */
  function Join(parts: seq<string>, sep: string): string
  {
    if |parts| == 0 then []
    else if |parts| == 1 then parts[0]
    else parts[0] + sep + Join(parts[1..], sep)
  }

  /**
   * `s.split(sep)` for a one-character separator: the pieces between the
   * separators, always at least one (the empty string splits into [""]).
   */
  function Split(s: string, sep: char): (parts: seq<string>)
    ensures |parts| == Count(s, sep) + 1
    ensures forall i :: 0 <= i < |parts| ==> sep !in parts[i]
    ensures Join(parts, [sep]) == s
  {
    if s == [] then [[]]
    else
      var rest := Split(s[1..], sep);
      assert [s[0]] + s[1..] == s;
      if s[0] == sep then
        JoinEmptyHead(rest, [sep]);
        [[]] + rest
      else
        JoinPrepend(s[0], rest, [sep]);
        [[s[0]] + rest[0]] + rest[1..]
  }

  lemma JoinEmptyHead(rest: seq<string>, sep: string)
    requires |rest| >= 1
    ensures Join([[]] + rest, sep) == sep + Join(rest, sep)
  {
    assert ([[]] + rest)[1..] == rest;
  }

  lemma JoinPrepend(c: char, rest: seq<string>, sep: string)
    requires |rest| >= 1
    ensures Join([[c] + rest[0]] + rest[1..], sep) == [c] + Join(rest, sep)
  {
    var parts := [[c] + rest[0]] + rest[1..];
    assert parts[1..] == rest[1..];
    if |rest| > 1 {
      assert Join(rest, sep) == rest[0] + sep + Join(rest[1..], sep);
    }
  }

  /** Splitting around a separator splits each side independently. */
  lemma {:induction false} SplitAround(a: string, b: string, sep: char)
    ensures Split(a + [sep] + b, sep) == Split(a, sep) + Split(b, sep)
  {
    if a == [] {
      assert a + [sep] + b == [sep] + b;
      SplitHead(sep, b, sep);
    } else {
      var x := a[1..];
      var y := x + [sep] + b;
      assert a + [sep] + b == [a[0]] + y && a == [a[0]] + x;
      SplitHead(a[0], y, sep);
      SplitHead(a[0], x, sep);
      SplitAround(x, b, sep);
      var p, q := Split(x, sep), Split(b, sep);
      if a[0] == sep {
        ConsAppend([], p, q);
      } else {
        TailOfAppend(p, q);
        ConsAppend([a[0]] + p[0], p[1..], q);
      }
    }
  }

  lemma AppendAssoc<T>(a: seq<T>, b: seq<T>, c: seq<T>)
    ensures a + b + c == a + (b + c)
  {
  }

  lemma EmptyLeft<T>(a: seq<T>, b: seq<T>)
    requires a == []
    ensures a + b == b
  {
  }

  /** Taking the first element off the front of a three-part concatenation. */
  lemma HeadSplit<T>(a: seq<T>, y: seq<T>, z: seq<T>)
    requires a != []
    ensures a + y + z == [a[0]] + (a[1..] + y + z)
  {
  }

  /** Putting the first element back in front of the rest. */
  lemma HeadThenRest<T>(a: seq<T>, y: seq<T>)
    requires a != []
    ensures [a[0]] + (a[1..] + y) == a + y
  {
  }

  lemma ConsAppend<T>(x: T, p: seq<T>, q: seq<T>)
    ensures [x] + (p + q) == ([x] + p) + q
  {
  }

  lemma TailOfAppend<T>(p: seq<T>, q: seq<T>)
    requires p != []
    ensures (p + q)[0] == p[0] && (p + q)[1..] == p[1..] + q
  {
  }

  /** How `Split` treats the first character. */
  lemma SplitHead(c: char, y: string, sep: char)
    ensures Split([c] + y, sep) == if c == sep then [[]] + Split(y, sep) else [[c] + Split(y, sep)[0]] + Split(y, sep)[1..]
  {
    assert ([c] + y)[0] == c && ([c] + y)[1..] == y;
  }

  lemma SplitWithoutSeparator(s: string, sep: char)
    requires sep !in s
    ensures Split(s, sep) == [s]
  {
  }

  /** `split` undoes `join` when no piece contains the separator. */
  lemma {:induction false} SplitJoin(parts: seq<string>, sep: char)
    requires |parts| >= 1
    requires forall i :: 0 <= i < |parts| ==> sep !in parts[i]
    ensures Split(Join(parts, [sep]), sep) == parts
  {
    if |parts| == 1 {
      SplitWithoutSeparator(parts[0], sep);
    } else {
      SplitAround(parts[0], Join(parts[1..], [sep]), sep);
      SplitWithoutSeparator(parts[0], sep);
      SplitJoin(parts[1..], sep);
      assert [parts[0]] + parts[1..] == parts;
    }
  }

  // ------------------------------------------------- decimal numerals

  /** The value of an all-digit string read in base ten ("" reads as 0). */
  function DecimalValue(s: string): nat
    requires AllDigits(s)
  {
    if s == [] then 0 else 10 * DecimalValue(s[..|s| - 1]) + DigitValue(s[|s| - 1])
  }

  /** `n.toString()` for a non-negative integer. */
  function ToDecimal(n: nat): (s: string)
    ensures |s| >= 1 && AllDigits(s)
    ensures DecimalValue(s) == n
    ensures |s| > 1 ==> s[0] != '0'
  {
    if n < 10 then [DigitChar(n)]
    else
      var s := ToDecimal(n / 10) + [DigitChar(n % 10)];
      assert s[..|s| - 1] == ToDecimal(n / 10);
      s
  }

  /** The longest prefix of `s` made of decimal digits. */
  function LeadingDigits(s: string): (r: string)
    ensures |r| <= |s| && r == s[..|r|] && AllDigits(r)
    ensures |r| < |s| ==> !IsDigit(s[|r|])
  {
    if s != [] && IsDigit(s[0]) then [s[0]] + LeadingDigits(s[1..]) else []
  }

  /**
   * `parseInt(s)` on a string that starts with its digits: the value of the
   * leading digit run, or NaN when there is none.
   */
  function ParseInt(s: string): (r: JsNum)
    ensures r.NaN? <==> s == [] || !IsDigit(s[0])
    ensures r.Num? ==> r.n >= 0
  {
    var run := LeadingDigits(s);
    if run == [] then NaN else Num(DecimalValue(run))
  }

  lemma {:induction false} LeadingDigitsOfDigits(s: string)
    requires AllDigits(s)
    ensures LeadingDigits(s) == s
  {
    if s != [] {
      LeadingDigitsOfDigits(s[1..]);
    }
  }

  /** `parseInt` reads back what `toString` writes. */
  lemma ParseIntToDecimal(n: nat)
    ensures ParseInt(ToDecimal(n)) == Num(n)
  {
    LeadingDigitsOfDigits(ToDecimal(n));
  }

  // ---------------------------------------------------------------- trim

  /** `s.trimStart()`. */
  function TrimStart(s: string): (r: string)
    ensures |r| <= |s| && r == s[|s| - |r|..]
    ensures r != [] ==> !IsJsWhitespace(r[0])
    ensures forall i :: 0 <= i < |s| - |r| ==> IsJsWhitespace(s[i])
  {
    if s != [] && IsJsWhitespace(s[0]) then TrimStart(s[1..]) else s
  }

  /** `s.trimEnd()`. */
  function TrimEnd(s: string): (r: string)
    ensures |r| <= |s| && r == s[..|r|]
    ensures r != [] ==> !IsJsWhitespace(r[|r| - 1])
    ensures forall i :: |r| <= i < |s| ==> IsJsWhitespace(s[i])
  {
    if s != [] && IsJsWhitespace(s[|s| - 1]) then TrimEnd(s[..|s| - 1]) else s
  }

  /**
   * `s.trim()`: the contiguous middle of `s` left once the whitespace at
   * both ends is removed.
   */
  function Trim(s: string): (r: string)
    ensures r == [] || (!IsJsWhitespace(r[0]) && !IsJsWhitespace(r[|r| - 1]))
    ensures forall c :: c in r ==> c in s
    ensures exists k :: MiddleAt(s, r, k)
  {
    var t := TrimStart(s);
    var r := TrimEnd(t);
    TrimMiddle(s, t, r);
    r
  }

  /** Cutting whitespace off the front and then off the back leaves a middle part. */
  lemma TrimMiddle(s: string, t: string, r: string)
    requires |t| <= |s| && t == s[|s| - |t|..]
    requires forall i :: 0 <= i < |s| - |t| ==> IsJsWhitespace(s[i])
    requires t != [] ==> !IsJsWhitespace(t[0])
    requires |r| <= |t| && r == t[..|r|]
    requires forall i :: |r| <= i < |t| ==> IsJsWhitespace(t[i])
    requires r != [] ==> !IsJsWhitespace(r[|r| - 1])
    ensures MiddleAt(s, r, |s| - |t|)
    ensures r == [] || (!IsJsWhitespace(r[0]) && !IsJsWhitespace(r[|r| - 1]))
    ensures forall c :: c in r ==> c in s
  {
    var k := |s| - |t|;
    assert r != [] ==> r[0] == t[0];
    assert forall j :: 0 <= j < |r| ==> r[j] == s[k + j];
    forall i | k + |r| <= i < |s|
      ensures IsJsWhitespace(s[i])
    {
      assert s[i] == t[i - k];
    }
  }

  lemma {:induction false} TrimStartWhitespace(w: string, x: string)
    requires forall i :: 0 <= i < |w| ==> IsJsWhitespace(w[i])
    requires x == [] || !IsJsWhitespace(x[0])
    ensures TrimStart(w + x) == x
  {
    if w == [] {
      assert w + x == x;
    } else {
      assert (w + x)[1..] == w[1..] + x;
      TrimStartWhitespace(w[1..], x);
    }
  }

  /** Leading whitespace before a text with no whitespace at either end is all that `trim` removes. */
  lemma TrimLeading(w: string, x: string)
    requires forall i :: 0 <= i < |w| ==> IsJsWhitespace(w[i])
    requires x != [] && !IsJsWhitespace(x[0]) && !IsJsWhitespace(x[|x| - 1])
    ensures Trim(w + x) == x
  {
    TrimStartWhitespace(w, x);
  }

  /** `r` is `s[k..]` cut short, with only whitespace before and after it. */
  predicate MiddleAt(s: string, r: string, k: int)
  {
    && 0 <= k <= |s| - |r| && r == s[k..k + |r|]
    && (forall i :: 0 <= i < k ==> IsJsWhitespace(s[i]))
    && (forall i :: k + |r| <= i < |s| ==> IsJsWhitespace(s[i]))
  }
}
