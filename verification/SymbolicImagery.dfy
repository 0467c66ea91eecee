/**
 * The symbolic panel: the fixed table of the nine number symbols, the
 * symbols picked for the user's four numbers, and the active symbol that a
 * click toggles.
 */
module SymbolicImagery {
  import opened JsText

  datatype SymbolData = SymbolData(id: int, number: int, name: string, symbol: string, meaning: string, color: string)

  /** `symbols`: one entry per number 1..9, with `id` equal to `number`. */
  const Symbols: seq<SymbolData> := [
    SymbolData(1, 1, "The Individual", "☉", "Leadership, independence, originality",
      "bg-gradient-to-br from-red-400 to-orange-500"),
    SymbolData(2, 2, "The Diplomat", "☽", "Harmony, cooperation, sensitivity",
      "bg-gradient-to-br from-orange-300 to-amber-500"),
    SymbolData(3, 3, "The Communicator", "☿", "Expression, creativity, joy",
      "bg-gradient-to-br from-yellow-300 to-yellow-500"),
    SymbolData(4, 4, "The Builder", "♄", "Stability, practicality, organization",
      "bg-gradient-to-br from-green-400 to-emerald-500"),
    SymbolData(5, 5, "The Freedom Seeker", "♃", "Change, adventure, versatility",
      "bg-gradient-to-br from-blue-400 to-cyan-500"),
    SymbolData(6, 6, "The Nurturer", "♀", "Responsibility, love, harmony",
      "bg-gradient-to-br from-indigo-400 to-violet-500"),
    SymbolData(7, 7, "The Seeker", "☾", "Analysis, wisdom, spirituality",
      "bg-gradient-to-br from-purple-400 to-fuchsia-500"),
    SymbolData(8, 8, "The Achiever", "♅", "Power, abundance, authority",
      "bg-gradient-to-br from-pink-400 to-rose-500"),
    SymbolData(9, 9, "The Humanitarian", "♆", "Compassion, completion, selflessness",
      "bg-gradient-to-br from-violet-400 to-purple-600")
  ]

  /** The four numbers the panel is given, in display order. */
  datatype SymbolicNumbers = SymbolicNumbers(lifePath: int, expression: int, soulUrge: int, personality: int)

  /** The panel's own defaults, used only when a number is not passed. */
  const DefaultPanelNumbers := SymbolicNumbers(1, 5, 9, 3)

  /** Which field a lookup compares: `s.number === n` or `s.id === n`. */
  datatype Key = ByNumber | ById

  function KeyOf(s: SymbolData, key: Key): int
  {
    match key
    case ByNumber => s.number
    case ById => s.id
  }

  /** `table.find(s => key(s) === n)`: the first entry whose key is `n`. */
  function Find(table: seq<SymbolData>, key: Key, n: int): (r: Option<SymbolData>)
    ensures r.None? <==> forall i :: 0 <= i < |table| ==> KeyOf(table[i], key) != n
    ensures r.Some? ==> r.value in table && KeyOf(r.value, key) == n
    ensures r.Some? ==> exists k :: FirstMatch(table, key, n, k) && r.value == table[k]
  {
    if table == [] then None
    else if KeyOf(table[0], key) == n then
      assert FirstMatch(table, key, n, 0);
      Some(table[0])
    else
      var r := Find(table[1..], key, n);
      assert r.Some? ==> exists k :: FirstMatch(table, key, n, k) && r.value == table[k] by {
        if r.Some? {
          var k :| FirstMatch(table[1..], key, n, k) && r.value == table[1..][k];
          assert FirstMatch(table, key, n, k + 1);
        }
      }
      r
  }

  /** Entry `k` is the first whose key is `n`. */
  predicate FirstMatch(table: seq<SymbolData>, key: Key, n: int, k: int)
  {
    0 <= k < |table| && KeyOf(table[k], key) == n && forall j :: 0 <= j < k ==> KeyOf(table[j], key) != n
  }

  /** A table numbered consecutively from `base` is looked up by position. */
  lemma {:induction false} FindInNumberedTable(table: seq<SymbolData>, key: Key, base: int, n: int)
    requires forall i :: 0 <= i < |table| ==> KeyOf(table[i], key) == base + i
    ensures Find(table, key, n) == if base <= n < base + |table| then Some(table[n - base]) else None
  {
    if table != [] && KeyOf(table[0], key) != n {
      FindInNumberedTable(table[1..], key, base + 1, n);
    }
  }

  lemma SymbolsNumbered()
    ensures |Symbols| == 9
    ensures forall i :: 0 <= i < 9 ==> Symbols[i].id == i + 1 && Symbols[i].number == i + 1
  {
  }

  /** Looking a number up by `number` or by `id` gives entry n - 1 for 1..9 and nothing otherwise. */
  lemma FindSymbol(key: Key, n: int)
    ensures Find(Symbols, key, n) == if 1 <= n <= 9 then Some(Symbols[n - 1]) else None
  {
    SymbolsNumbered();
    FindInNumberedTable(Symbols, key, 1, n);
  }

  /** `.filter(Boolean)` over lookups: keeps the entries that were found, in order. */
  function Present(found: seq<Option<SymbolData>>): seq<SymbolData>
  {
    if found == [] then []
    else (if found[0].Some? then [found[0].value] else []) + Present(found[1..])
  }

  /** The inputs that name a symbol, in order. */
  function InRange(xs: seq<int>): seq<int>
  {
    if xs == [] then []
    else (if 1 <= xs[0] <= 9 then [xs[0]] else []) + InRange(xs[1..])
  }

  function NumbersOf(ss: seq<SymbolData>): (ns: seq<int>)
    ensures |ns| == |ss|
  {
    if ss == [] then [] else [ss[0].number] + NumbersOf(ss[1..])
  }

  function FindAll(xs: seq<int>): (r: seq<Option<SymbolData>>)
    ensures |r| == |xs|
    ensures forall i :: 0 <= i < |xs| ==> r[i] == Find(Symbols, ByNumber, xs[i])
  {
    if xs == [] then [] else [Find(Symbols, ByNumber, xs[0])] + FindAll(xs[1..])
  }

  lemma {:induction false} PresentFindAll(xs: seq<int>)
    ensures NumbersOf(Present(FindAll(xs))) == InRange(xs)
    ensures |Present(FindAll(xs))| <= |xs|
    ensures forall s :: s in Present(FindAll(xs)) ==> s in Symbols && s.id == s.number && 1 <= s.id <= 9
  {
    if xs != [] {
      var found := FindAll(xs);
      assert found[1..] == FindAll(xs[1..]);
      FindSymbol(ByNumber, xs[0]);
      PresentFindAll(xs[1..]);
      SymbolsNumbered();
      var head := if found[0].Some? then [found[0].value] else [];
      NumbersOfAppend(head, Present(found[1..]));
    }
  }

  lemma {:induction false} InRangeAll(xs: seq<int>)
    requires forall i :: 0 <= i < |xs| ==> 1 <= xs[i] <= 9
    ensures InRange(xs) == xs
  {
    if xs != [] {
      InRangeAll(xs[1..]);
      assert [xs[0]] + xs[1..] == xs;
    }
  }

  lemma {:induction false} NumbersOfAppend(a: seq<SymbolData>, b: seq<SymbolData>)
    ensures NumbersOf(a + b) == NumbersOf(a) + NumbersOf(b)
  {
    if a == [] {
      assert a + b == b;
    } else {
      assert (a + b)[1..] == a[1..] + b;
      NumbersOfAppend(a[1..], b);
    }
  }

  /**
   * `userSymbols`: the symbols of life path, expression, soul urge and
   * personality, in that order, leaving out any number outside 1..9.
   */
  function UserSymbols(nums: SymbolicNumbers): (r: seq<SymbolData>)
    ensures NumbersOf(r) == InRange([nums.lifePath, nums.expression, nums.soulUrge, nums.personality])
    ensures |r| <= 4
    ensures forall s :: s in r ==> s in Symbols && s.id == s.number && 1 <= s.id <= 9
  {
    var xs := [nums.lifePath, nums.expression, nums.soulUrge, nums.personality];
    PresentFindAll(xs);
    Present(FindAll(xs))
  }

  /** With its own defaults the panel shows the symbols of 1, 5, 9 and 3. */
  lemma DefaultPanelSymbols()
    ensures NumbersOf(UserSymbols(DefaultPanelNumbers)) == [1, 5, 9, 3]
  {
    var xs := [1, 5, 9, 3];
    assert InRange(xs) == xs by {
      InRangeAll(xs);
    }
  }

  /** A lookup by id finds the entry with that id, at position id - 1, exactly for the ids 1..9. */
  lemma LookUpById(id: int)
    ensures Find(Symbols, ById, id).Some? <==> 1 <= id <= 9
    ensures Find(Symbols, ById, id).Some? ==>
      var s := Find(Symbols, ById, id).value; s.id == id && s in Symbols && s == Symbols[id - 1]
  {
    FindSymbol(ById, id);
    SymbolsNumbered();
  }

  /** A click on a symbol: clicking the active one clears it, any other one becomes active. */
  function Toggle(active: Option<int>, id: int): (r: Option<int>)
    ensures r.None? <==> active == Some(id)
    ensures r.Some? ==> r.value == id
  {
    if active == Some(id) then None else Some(id)
  }

  /**
   * Two clicks on the same symbol give back the state before them, except
   * when a different symbol was active: then nothing is active afterwards.
   */
  lemma ToggleTwice(active: Option<int>, id: int)
    ensures Toggle(Toggle(active, id), id) == if active.Some? && active.value != id then None else active
  {
  }

  /** The panel's view state. */
  class SymbolPanel {
    const numbers: SymbolicNumbers
    var activeSymbol: Option<int>

    /** Only a rendered symbol can have been clicked, so an active id is one of 1..9. */
    ghost predicate Valid()
      reads this
    {
      activeSymbol.Some? ==> 1 <= activeSymbol.value <= 9
    }

    constructor (numbers: SymbolicNumbers)
      ensures Valid()
      ensures this.numbers == numbers && activeSymbol == None
    {
      this.numbers := numbers;
      activeSymbol := None;
    }

    /** The click handler of the `i`-th rendered symbol. */
    method Click(i: nat)
      requires Valid()
      requires i < |UserSymbols(numbers)|
      modifies this
      ensures Valid()
      ensures activeSymbol == Toggle(old(activeSymbol), UserSymbols(numbers)[i].id)
    {
      var s := UserSymbols(numbers)[i];
      assert s in UserSymbols(numbers);
      activeSymbol := if activeSymbol == Some(s.id) then None else Some(s.id);
    }

    /** The detail panel: shown only while a symbol is active, for the entry with that id. */
    function Detail(): (r: Option<SymbolData>)
      reads this
      ensures r.Some? ==> activeSymbol == Some(r.value.id) && r.value in Symbols
      ensures Valid() ==> (r.Some? <==> activeSymbol.Some?)
      ensures r.Some? ==> r.value == Symbols[r.value.id - 1]
    {
      if activeSymbol.Some? && activeSymbol.value != 0 then
        LookUpById(activeSymbol.value);
        Find(Symbols, ById, activeSymbol.value)
      else None
    }
  }
}
