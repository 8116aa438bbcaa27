/**
 * The fi(lter) or(der) page itself: the "+Column" button, which names and numbers a
 * new column, and the page's own delete entries, which take a row or a column out
 * without renumbering the rest.
 */
module LivePage {
  import opened Wrappers
  import opened JsRuntime
  import opened JsObject
  import opened FiorModel
  import opened StableSort

  // ---------------------------------------------------------------------------
  // The numbers already used in "fior-<n>" names
  // ---------------------------------------------------------------------------

  /** The number in a column name `fior-<text>`, as `parseInt` reads the text; `None` for other names and `NaN`. */
  function NameNumber(name: string): Option<int> {
    if StartsWith(name, "fior-") then ParseInt(name[5..]) else None
  }

  function NameNumbers(cols: seq<Column>): (ps: seq<Option<int>>)
    ensures |ps| == |cols| && forall i :: 0 <= i < |cols| ==> ps[i] == NameNumber(cols[i].name)
  {
    seq(|cols|, i requires 0 <= i < |cols| => NameNumber(cols[i].name))
  }

  /** The values present, in their order. */
  function Somes(ps: seq<Option<int>>): seq<int>
    decreases |ps|
  {
    if ps == [] then [] else (if ps[0].Some? then [ps[0].value] else []) + Somes(ps[1..])
  }

  lemma {:induction false} SomesIff(ps: seq<Option<int>>, n: int)
    ensures n in Somes(ps) <==> Some(n) in ps
    decreases |ps|
  {
    if ps != [] {
      SomesIff(ps[1..], n);
      assert Some(n) in ps <==> ps[0] == Some(n) || Some(n) in ps[1..];
    }
  }

  /** `.filter(...).map((col) => parseInt(col.name.slice(5)))` over the columns, in their order. */
  function Suffixes(cols: seq<Column>): seq<int> {
    Somes(NameNumbers(cols))
  }

  // ---------------------------------------------------------------------------
  // The "+Column" button as written
  // ---------------------------------------------------------------------------

  /** The order `toSorted()` uses without a comparator: numbers compared by their text. */
  function NumberTextLe(): (int, int) -> bool {
    (a: int, b: int) => CodeUnitLe(IntToString(a), IntToString(b))
  }

  lemma NumberTextLeIsTotalPreorder()
    ensures TotalPreorder(NumberTextLe())
  {
    var le := NumberTextLe();
    forall a: int, b: int ensures le(a, b) || le(b, a) {
      CodeUnitLeTotal(IntToString(a), IntToString(b));
    }
    forall a: int, b: int, c: int | le(a, b) && le(b, c) ensures le(a, c) {
      CodeUnitLeTransitive(IntToString(a), IntToString(b), IntToString(c));
    }
  }

  /** `.findIndex((n, i) => n !== i)`: the first position whose value differs from it, or -1. */
  function FirstMismatch(s: seq<int>, from: nat): (p: int)
    requires from <= |s|
    ensures p == -1 || from <= p < |s|
    ensures p == -1 ==> forall q :: from <= q < |s| ==> s[q] == q
    ensures p != -1 ==> s[p] != p && forall q :: from <= q < p ==> s[q] == q
    decreases |s| - from
  {
    if from == |s| then -1 else if s[from] != from then from else FirstMismatch(s, from + 1)
  }

  /** The number the button gives the new column, as written. */
  function NewColumnNumberAsWritten(columns: Rec<string, Column>): nat {
    var i := FirstMismatch(Sort(Suffixes(Values(columns)), NumberTextLe()), 0);
    if i == -1 then |columns| else i
  }

  function FiorName(n: nat): string {
    "fior-" + NatToString(n)
  }

  /** `fior-<n>` has number `n`. */
  lemma FiorNameNumber(n: nat)
    ensures NameNumber(FiorName(n)) == Some(n)
  {
    assert FiorName(n)[5..] == NatToString(n);
    ParseIntOfNatToString(n);
  }

  lemma SmallNumberTexts()
    ensures IntToString(0) == "0" && IntToString(1) == "1" && IntToString(2) == "2" && IntToString(10) == "10"
  {
    assert NatToString(10) == NatToString(1) + [DigitChar(0)];
  }

  /** In text order 10 goes between 1 and 2. */
  lemma TextOrderOfSmallNumbers()
    ensures Sort([0, 1, 2, 10], NumberTextLe()) == [0, 1, 10, 2]
  {
    var le := NumberTextLe();
    SmallNumberTexts();
    assert !le(2, 10) by { assert !CodeUnitLe("2", "10"); }
    assert le(1, 10) by { assert "1"[1..] == [] && "10"[1..] == "0"; assert CodeUnitLe([], "0"); }
    assert le(0, 1);
    assert Sort([10], le) == [10] by { assert [10][1..] == []; }
    assert Sort([2, 10], le) == [10, 2] by { assert [2, 10][1..] == [10]; }
    assert Sort([1, 2, 10], le) == [1, 10, 2] by { assert [1, 2, 10][1..] == [2, 10]; }
    assert [0, 1, 2, 10][1..] == [1, 2, 10];
  }

  lemma SomesOfFour(ps: seq<Option<int>>)
    requires ps == [Some(0), Some(1), Some(2), Some(10)]
    ensures Somes(ps) == [0, 1, 2, 10]
  {
    assert ps[1..][1..][1..][1..] == [];
    assert ps[1..][1..][1..] == [Some(10)];
    assert ps[1..][1..] == [Some(2), Some(10)];
    assert ps[1..] == [Some(1), Some(2), Some(10)];
    assert Somes(ps[1..][1..][1..]) == [10];
    assert Somes(ps[1..][1..]) == [2, 10];
    assert Somes(ps[1..]) == [1, 2, 10];
  }

  lemma SuffixesOfFour(a: Column, b: Column, c: Column, d: Column)
    requires NameNumber(a.name) == Some(0) && NameNumber(b.name) == Some(1)
    requires NameNumber(c.name) == Some(2) && NameNumber(d.name) == Some(10)
    ensures Suffixes([a, b, c, d]) == [0, 1, 2, 10]
  {
    SomesOfFour(NameNumbers([a, b, c, d]));
  }

  /**
   * The text order puts 10 before 2, so with columns named fior-0, fior-1, fior-2 and
   * fior-10 the button picks 2 and names the new column fior-2 a second time.
   */
  lemma NewColumnNameClash(a: Column, b: Column, c: Column, d: Column)
    requires a.name == FiorName(0) && b.name == FiorName(1) && c.name == FiorName(2) && d.name == FiorName(10)
    ensures var columns := [("a", a), ("b", b), ("c", c), ("d", d)];
      NewColumnNumberAsWritten(columns) == 2 && FiorName(NewColumnNumberAsWritten(columns)) == c.name
  {
    var columns := [("a", a), ("b", b), ("c", c), ("d", d)];
    assert Values(columns) == [a, b, c, d];
    FiorNameNumber(0);
    FiorNameNumber(1);
    FiorNameNumber(2);
    FiorNameNumber(10);
    SuffixesOfFour(a, b, c, d);
    TextOrderOfSmallNumbers();
    assert FirstMismatch([0, 1, 10, 2], 0) == 2;
  }

  // ---------------------------------------------------------------------------
  // The "+Column" button, corrected
  // ---------------------------------------------------------------------------

  /** How many values of `s` are at least `n`. */
  function CountAtLeast(s: seq<int>, n: int): nat
    decreases |s|
  {
    if s == [] then 0 else (if s[0] >= n then 1 else 0) + CountAtLeast(s[1..], n)
  }

  lemma {:induction false} CountAtLeastStep(s: seq<int>, n: int)
    ensures CountAtLeast(s, n + 1) <= CountAtLeast(s, n)
    ensures n in s ==> CountAtLeast(s, n + 1) < CountAtLeast(s, n)
    decreases |s|
  {
    if s != [] {
      CountAtLeastStep(s[1..], n);
      assert n in s ==> s[0] == n || n in s[1..];
    }
  }

  /** The smallest natural number from `n` on that is not in `s`. */
  function MexFrom(s: seq<int>, n: nat): (m: nat)
    ensures m >= n && m !in s
    ensures forall k :: n <= k < m ==> k in s
    decreases CountAtLeast(s, n)
  {
    if n !in s then n
    else
      CountAtLeastStep(s, n);
      MexFrom(s, n + 1)
  }

  /**
   * The number a new column should get: the least number below the count of
   * `fior-<n>` columns that none of them uses; when there is none, the number of
   * columns, as the button's own fallback gives.
   */
  function NewColumnNumber(columns: Rec<string, Column>): nat {
    var s := Suffixes(Values(columns));
    var m := MexFrom(s, 0);
    if m < |s| then m else |columns|
  }

  /** Some column is named `fior-<k>` (as `parseInt` reads the text after the prefix). */
  ghost predicate Used(columns: Rec<string, Column>, k: int) {
    exists i :: 0 <= i < |columns| && NameNumber(columns[i].1.name) == Some(k)
  }

  lemma UsedIsSuffix(columns: Rec<string, Column>, k: int)
    ensures Used(columns, k) <==> k in Suffixes(Values(columns))
  {
    var ps := NameNumbers(Values(columns));
    SomesIff(ps, k);
    assert forall i :: 0 <= i < |columns| ==> ps[i] == NameNumber(columns[i].1.name);
    if Some(k) in ps {
      var i :| 0 <= i < |ps| && ps[i] == Some(k);
    }
  }

  lemma {:induction false} SomesLength(ps: seq<Option<int>>)
    ensures |Somes(ps)| <= |ps|
    decreases |ps|
  {
    if ps != [] {
      SomesLength(ps[1..]);
    }
  }

  function Elems(s: seq<int>): set<int> {
    set v | v in s
  }

  /** The numbers 0 .. n-1. */
  function Below(n: nat): (r: set<int>)
    ensures forall k :: k in r <==> 0 <= k < n
    ensures |r| == n
  {
    if n == 0 then {} else Below(n - 1) + {n - 1}
  }

  lemma {:induction false} ElemsCard(s: seq<int>)
    ensures |Elems(s)| <= |s|
    decreases |s|
  {
    if s != [] {
      ElemsCard(s[1..]);
      assert Elems(s) == {s[0]} + Elems(s[1..]);
    }
  }

  lemma SubsetCard(a: set<int>, b: set<int>)
    requires a <= b
    ensures |a| <= |b|
  {
    assert b == a + (b - a);
  }

  /** A list of n numbers that holds each of 0 .. n-1 holds no other number. */
  lemma CoveredHoldsNothingElse(s: seq<int>, x: int)
    requires forall k :: 0 <= k < |s| ==> k in s
    requires x in s
    ensures 0 <= x < |s|
  {
    if !(0 <= x < |s|) {
      ElemsCard(s);
      SubsetCard(Below(|s|) + {x}, Elems(s));
      assert false;
    }
  }

  /**
   * Either the corrected number is below the count of `fior-<n>` columns and every
   * smaller number is used, or those columns use exactly the numbers below their count
   * and the new number is the number of columns.
   */
  lemma NewColumnNumberChoice(columns: Rec<string, Column>)
    ensures var n := NewColumnNumber(columns); var s := Suffixes(Values(columns));
      (n < |s| && forall k :: 0 <= k < n ==> Used(columns, k)) ||
      (n == |columns| && forall k :: Used(columns, k) <==> 0 <= k < |s|)
  {
    var s := Suffixes(Values(columns));
    var m := MexFrom(s, 0);
    if m < |s| {
      forall k | 0 <= k < m ensures Used(columns, k) {
        UsedIsSuffix(columns, k);
      }
    } else {
      SomesLength(NameNumbers(Values(columns)));
      forall k ensures Used(columns, k) <==> 0 <= k < |s| {
        UsedIsSuffix(columns, k);
        if k in s {
          CoveredHoldsNothingElse(s, k);
        }
      }
    }
  }

  /** The corrected name is taken by no column. */
  lemma NewColumnNameFresh(columns: Rec<string, Column>)
    ensures forall i :: 0 <= i < |columns| ==> columns[i].1.name != FiorName(NewColumnNumber(columns))
  {
    var s := Suffixes(Values(columns));
    var n := NewColumnNumber(columns);
    if MexFrom(s, 0) < |s| {
      UsedIsSuffix(columns, n);
    } else {
      NewColumnNumberChoice(columns);
      SomesLength(NameNumbers(Values(columns)));
    }
    assert !Used(columns, n);
    FiorNameNumber(n);
  }

  /** When the button as written finds no gap, both rules give the number of columns. */
  lemma NoGapAgrees(columns: Rec<string, Column>)
    requires FirstMismatch(Sort(Suffixes(Values(columns)), NumberTextLe()), 0) == -1
    ensures NewColumnNumber(columns) == NewColumnNumberAsWritten(columns) == |columns|
  {
    var s := Suffixes(Values(columns));
    var t := Sort(s, NumberTextLe());
    SortPermutes(s, NumberTextLe());
    assert |t| == |multiset(t)| == |multiset(s)| == |s|;
    forall k | 0 <= k < |s| ensures k in s {
      assert t[k] == k;
      assert k in multiset(t);
    }
  }

  /** Columns numbered 0 to n-1 in object order, as the column delete leaves them. */
  predicate Numbered(columns: Rec<string, Column>) {
    forall i :: 0 <= i < |columns| ==> columns[i].1.index == i
  }

  /**
   * The "+Column" button: a new empty column under a fresh id, named with the
   * corrected number, with `index` the number of columns; it goes last.
   */
  method AddColumn(doc: Document, id: string)
    requires id !in Keys(doc.columns)
    modifies doc
    ensures doc.columns == old(doc.columns) + [(id, Column([], [], FiorName(NewColumnNumber(old(doc.columns))), |old(doc.columns)|))]
  {
    var col := Column([], [], FiorName(NewColumnNumber(doc.columns)), |doc.columns|);
    PutAbsent(doc.columns, id, col);
    doc.columns := Put(doc.columns, id, col);
  }

  /** Adding a column to numbered columns keeps them numbered, keeps their ids distinct and adds a fresh name. */
  lemma AddColumnKeepsNumbering(columns: Rec<string, Column>, id: string)
    requires id !in Keys(columns) && DistinctKeys(columns) && Numbered(columns)
    ensures var r := columns + [(id, Column([], [], FiorName(NewColumnNumber(columns)), |columns|))];
      Numbered(r) && DistinctKeys(r) && Keys(r) == Keys(columns) + [id] &&
      forall i :: 0 <= i < |columns| ==> r[i].1.name != r[|columns|].1.name
  {
    var col := Column([], [], FiorName(NewColumnNumber(columns)), |columns|);
    PutAbsent(columns, id, col);
    NewColumnNameFresh(columns);
  }

  // ---------------------------------------------------------------------------
  // The page's own delete entries
  // ---------------------------------------------------------------------------

  /** The row menu's "Delete..." on this page: `delete items.columns[column].rows[row]`, nothing renumbered. */
  method DeleteRow(doc: Document, c: string, row: string)
    requires Get(doc.columns, c).Some?
    modifies doc
    ensures var col := Get(old(doc.columns), c).value;
      doc.columns == Put(old(doc.columns), c, col.(rows := Remove(col.rows, row)))
  {
    var col := Get(doc.columns, c).value;
    doc.columns := Put(doc.columns, c, col.(rows := Remove(col.rows, row)));
  }

  /** The column menu's "Delete..." on this page: `delete items.columns[column]`, nothing renumbered. */
  method DeleteColumn(doc: Document, c: string)
    modifies doc
    ensures doc.columns == Remove(old(doc.columns), c)
  {
    doc.columns := Remove(doc.columns, c);
  }

  /**
   * Without renumbering, the other rows keep their `index` values, so a later "+Filter"
   * (index = number of rows) can repeat an index still in use: deleting the first of
   * rows 0 and 1 and adding one gives two rows with index 1.
   */
  lemma DeleteWithoutRenumberRepeatsIndex(a: Row, b: Row, op: Op)
    requires a.index == 0 && b.index == 1
    ensures var rows := Remove([("a", a), ("b", b)], "a");
      var next := Put(rows, "c", Row(op, |rows|));
      |next| == 2 && next[0].1.index == next[1].1.index
  {
    var rows := Remove([("a", a), ("b", b)], "a");
    assert rows == [("b", b)] by {
      assert [("a", a), ("b", b)][1..] == [("b", b)];
      assert Remove([("b", b)], "a") == [("b", b)] by {
        assert [("b", b)][1..] == [];
      }
    }
    PutAbsent(rows, "c", Row(op, 1));
  }
}
