/**
 * The fi(lter)/or(der) evaluator: `rowQuery` applies one row to an item list,
 * `columnQuery` threads every chosen playlist's items through a column's rows in
 * `index` order, and `dataQuery` does so for each requested column.
 */
module FiorQuery {
  import opened Wrappers
  import opened JsRuntime
  import opened JsObject
  import opened Catalog
  import opened FiorModel
  import opened Seqs
  import opened StableSort

  /**
   * The regular-expression engine, which is not modelled: whether `new RegExp(p)`
   * succeeds, and what `re.test(h)` answers for the pattern `p`.
   */
  datatype RegexEngine = RegexEngine(compiles: string -> bool, test: (string, string) -> bool)

  /** The exception `rowQuery` can raise: reading `length` of an undefined `cols`. */
  datatype QueryError = TypeError

  // ---------------------------------------------------------------------------
  // The search test of one item
  // ---------------------------------------------------------------------------

  /** The test a search row applies to a stringified value: `h.includes(search)` or `re.test(h)`. */
  function Probe(f: Filter, re: RegexEngine): string -> bool
    requires f.Search?
  {
    if f.regex then h => re.test(f.search, h) else h => Includes(h, f.search)
  }

  /** Column `col` of item `pi`, at position `i`, matches on its own. */
  predicate ColumnMatches(col: Key, pi: Item, i: nat, probe: string -> bool) {
    if col == Index then probe(NatToString(i))
    else Truthy(Field(pi, col)) && probe(Text(Field(pi, col)))
  }

  /** Column `col` lets the scan go on to the next column: `index`, or a truthy field. */
  predicate Passes(col: Key, pi: Item) {
    col == Index || Truthy(Field(pi, col))
  }

  /**
   * The answer of `run(pi, i)`: the columns are tried in order, `index` is tested as the
   * decimal text of the position `i`, and the first falsy field ends the scan with `false`.
   */
  predicate Hit(cols: seq<Key>, pi: Item, i: nat, probe: string -> bool)
    decreases |cols|
  {
    if cols == [] then false
    else if cols[0] == Index then probe(NatToString(i)) || Hit(cols[1..], pi, i, probe)
    else if !Truthy(Field(pi, cols[0])) then false
    else probe(Text(Field(pi, cols[0]))) || Hit(cols[1..], pi, i, probe)
  }

  /** The `run` closure: a loop over the columns with early returns. */
  method Run(cols: seq<Key>, pi: Item, i: nat, probe: string -> bool) returns (b: bool)
    ensures b == Hit(cols, pi, i, probe)
  {
    for j := 0 to |cols|
      invariant Hit(cols, pi, i, probe) == Hit(cols[j..], pi, i, probe)
    {
      assert cols[j..][1..] == cols[j + 1..];
      var col := cols[j];
      if col == Index {
        if probe(NatToString(i)) { return true; }
      } else {
        if !Truthy(Field(pi, col)) { return false; }
        if probe(Text(Field(pi, col))) { return true; }
      }
    }
    return false;
  }

  /**
   * An item is a hit exactly when some column matches and every column before it
   * lets the scan pass, so a falsy field hides every column after it.
   */
  lemma {:induction false} HitIff(cols: seq<Key>, pi: Item, i: nat, probe: string -> bool)
    ensures Hit(cols, pi, i, probe) <==>
      exists j :: 0 <= j < |cols| && ColumnMatches(cols[j], pi, i, probe) &&
        forall k :: 0 <= k < j ==> Passes(cols[k], pi)
    decreases |cols|
  {
    if cols != [] {
      HitIff(cols[1..], pi, i, probe);
      if Hit(cols, pi, i, probe) {
        if !ColumnMatches(cols[0], pi, i, probe) {
          var j :| 0 <= j < |cols[1..]| && ColumnMatches(cols[1..][j], pi, i, probe) &&
            forall k :: 0 <= k < j ==> Passes(cols[1..][k], pi);
          assert Passes(cols[0], pi);
          forall k | 0 <= k < j + 1 ensures Passes(cols[k], pi) {
            if k > 0 { assert cols[k] == cols[1..][k - 1]; }
          }
          assert ColumnMatches(cols[j + 1], pi, i, probe);
        }
      } else {
        forall j | 0 <= j < |cols| && ColumnMatches(cols[j], pi, i, probe)
          ensures exists k :: 0 <= k < j && !Passes(cols[k], pi)
        {
          if j == 0 {
            assert false;
          } else if !Passes(cols[0], pi) {
            assert !Passes(cols[0], pi);
          } else {
            assert ColumnMatches(cols[1..][j - 1], pi, i, probe);
            var k :| 0 <= k < j - 1 && !Passes(cols[1..][k], pi);
            assert cols[k + 1] == cols[1..][k];
          }
        }
      }
    }
  }

  /** A falsy field at column `j` makes the columns after it irrelevant. */
  lemma {:induction false} FalsyEndsScan(cols: seq<Key>, j: nat, pi: Item, i: nat, probe: string -> bool)
    requires j < |cols| && !Passes(cols[j], pi)
    ensures Hit(cols, pi, i, probe) == Hit(cols[..j], pi, i, probe)
    decreases j
  {
    if j > 0 {
      assert cols[1..][j - 1] == cols[j];
      FalsyEndsScan(cols[1..], j - 1, pi, i, probe);
      assert cols[1..][..j - 1] == cols[..j][1..];
    }
  }

  // ---------------------------------------------------------------------------
  // One row
  // ---------------------------------------------------------------------------

  /** `filter.cols.length` for a filter whose `cols` is defined; an object has no `length`. */
  function ColsLength(f: Filter): Js<nat> {
    match f
    case Search(cols, _, _) => Defined(|cols|)
    case RandomSelect(cols, _, _) => Defined(|cols|)
    case Check(Listed(keys), _, _) => Defined(|keys|)
    case Check(Flags(_), _, _) => Undefined
    case Check(Unset, _, _) => Undefined
  }

  /** The filter rows that return their input: empty `cols`, or a regex that does not compile. */
  predicate PassThrough(f: Filter, re: RegexEngine) {
    ColsLength(f) == Defined(0) || (f.Search? && f.regex && !re.compiles(f.search))
  }

  /** The `run` test of a filter: the search test, or `() => false` for every other filter. */
  function Keep(f: Filter, re: RegexEngine): (Item, nat) -> bool {
    if f.Search? then (pi: Item, i: nat) => Hit(f.cols, pi, i, Probe(f, re)) else (pi: Item, i: nat) => false
  }

  /** `data.not ? items.filter((pi, i) => !run(pi, i)) : items.filter(run)`. */
  function Select(items: seq<Item>, keep: (Item, nat) -> bool, not: bool): seq<Item> {
    if not then Filtered(items, (pi: Item, i: nat) => !keep(pi, i)) else Filtered(items, keep)
  }

  /** `rowQuery` as written, where a check row whose `cols` is undefined throws. */
  function RowQueryAsWritten(row: Row, items: seq<Item>, re: RegexEngine): Result<seq<Item>, QueryError> {
    match row.op
    case OrderOp(_, _) => Ok(items)
    case FilterOp(not, f) =>
      if f.Check? && f.checkCols.Unset? then Failure(TypeError)
      else if PassThrough(f, re) then Ok(items)
      else Ok(Select(items, Keep(f, re), not))
  }

  /**
   * `rowQuery` with an undefined check `cols` read as "no columns", which returns the
   * input like an empty list does. This is the evaluator the rest of the model uses.
   */
  function RowQuery(row: Row, items: seq<Item>, re: RegexEngine): (out: seq<Item>)
    ensures IsSubseq(out, items)
    ensures row.op.OrderOp? ==> out == items
    ensures row.op.FilterOp? && PassThrough(row.op.filter, re) ==> out == items
  {
    match row.op
    case OrderOp(_, _) => SubseqReflexive(items); items
    case FilterOp(not, f) =>
      if (f.Check? && f.checkCols.Unset?) || PassThrough(f, re) then
        SubseqReflexive(items);
        items
      else
        var keep := Keep(f, re);
        FilterIndexedIsSubseq(items, keep, 0);
        FilterIndexedIsSubseq(items, (pi: Item, i: nat) => !keep(pi, i), 0);
        Select(items, keep, not)
  }

  /** The two versions differ only where the written one throws. */
  lemma RowQueryAsWrittenAgrees(row: Row, items: seq<Item>, re: RegexEngine)
    ensures RowQueryAsWritten(row, items, re) ==
      if row.op.FilterOp? && row.op.filter.Check? && row.op.filter.checkCols.Unset?
      then Failure(TypeError) else Ok(RowQuery(row, items, re))
  {
  }

  /**
   * `not` splits the input: for a filter that does filter, the `not: false` and the
   * `not: true` outputs together hold every input element exactly once.
   */
  lemma NotPartitions(f: Filter, index: int, items: seq<Item>, re: RegexEngine)
    requires !(f.Check? && f.checkCols.Unset?) && !PassThrough(f, re)
    ensures multiset(RowQuery(Row(FilterOp(false, f), index), items, re)) +
            multiset(RowQuery(Row(FilterOp(true, f), index), items, re)) == multiset(items)
    ensures |RowQuery(Row(FilterOp(false, f), index), items, re)| +
            |RowQuery(Row(FilterOp(true, f), index), items, re)| == |items|
  {
    var keep := Keep(f, re);
    FilterPartition(items, keep, (pi: Item, i: nat) => !keep(pi, i), 0);
  }

  /** A check row with columns rejects every item, and keeps every item when `not` is set. */
  lemma CheckKeepsNothing(f: Filter, index: int, items: seq<Item>, re: RegexEngine)
    requires f.Check? && (f.checkCols.Flags? || (f.checkCols.Listed? && f.checkCols.keys != []))
    ensures RowQuery(Row(FilterOp(false, f), index), items, re) == []
    ensures RowQuery(Row(FilterOp(true, f), index), items, re) == items
  {
    var keep := Keep(f, re);
    FilterNone(items, keep, 0);
    FilterAll(items, (pi: Item, i: nat) => !keep(pi, i), 0);
  }

  /** A search row keeps an element exactly when it is a hit at some position it holds. */
  lemma SearchKeeps(f: Filter, index: int, items: seq<Item>, re: RegexEngine, x: Item)
    requires f.Search? && f.cols != [] && !(f.regex && !re.compiles(f.search))
    ensures x in RowQuery(Row(FilterOp(false, f), index), items, re) <==>
      exists i :: 0 <= i < |items| && items[i] == x && Hit(f.cols, x, i, Probe(f, re))
  {
    var keep := Keep(f, re);
    if x in Filtered(items, keep) {
      FilterIndexedKept(items, keep, 0, x);
    }
    if exists i :: 0 <= i < |items| && items[i] == x && Hit(f.cols, x, i, Probe(f, re)) {
      var i :| 0 <= i < |items| && items[i] == x && Hit(f.cols, x, i, Probe(f, re));
      FilterIndexedKeeps(items, keep, 0, i);
    }
  }

  /**
   * A plain search on the `index` column tests the decimal text of each item's position
   * in the list it is given, whatever its `position` field holds.
   */
  lemma IndexSearchUsesPosition(search: string, index: int, items: seq<Item>, re: RegexEngine, i: nat)
    requires i < |items|
    ensures Includes(NatToString(i), search) ==>
      items[i] in RowQuery(Row(FilterOp(false, Search([Index], search, false)), index), items, re)
    ensures forall x :: x in RowQuery(Row(FilterOp(false, Search([Index], search, false)), index), items, re) ==>
      exists j :: 0 <= j < |items| && items[j] == x && Includes(NatToString(j), search)
  {
    IndexSearchKeeps(search, index, items, re, i);
    IndexSearchOnly(search, index, items, re);
  }

  lemma IndexSearchKeeps(search: string, index: int, items: seq<Item>, re: RegexEngine, i: nat)
    requires i < |items|
    ensures Includes(NatToString(i), search) ==>
      items[i] in RowQuery(Row(FilterOp(false, Search([Index], search, false)), index), items, re)
  {
    var f := Search([Index], search, false);
    var keep := Keep(f, re);
    if Includes(NatToString(i), search) {
      assert keep(items[i], 0 + i);
      FilterIndexedKeeps(items, keep, 0, i);
    }
  }

  lemma IndexSearchOnly(search: string, index: int, items: seq<Item>, re: RegexEngine)
    ensures forall x :: x in RowQuery(Row(FilterOp(false, Search([Index], search, false)), index), items, re) ==>
      exists j :: 0 <= j < |items| && items[j] == x && Includes(NatToString(j), search)
  {
    var f := Search([Index], search, false);
    var keep := Keep(f, re);
    forall x | x in Filtered(items, keep)
      ensures exists j :: 0 <= j < |items| && items[j] == x && Includes(NatToString(j), search)
    {
      FilterIndexedKept(items, keep, 0, x);
      var j :| 0 <= j < |items| && items[j] == x && keep(x, 0 + j);
      assert Hit([Index], x, j, Probe(f, re));
    }
  }

  // ---------------------------------------------------------------------------
  // A column
  // ---------------------------------------------------------------------------

  /** `cmpIndex(a, b) <= 0`. */
  predicate IndexLe(a: Row, b: Row) {
    a.index - b.index <= 0
  }

  lemma IndexLeIsPreorder()
    ensures TotalPreorder(IndexLe)
  {
  }

  /** `Object.values(data.rows).toSorted(cmpIndex)`. */
  function SortedRows(col: Column): seq<Row> {
    Sort(Values(col.rows), IndexLe)
  }

  /** The column's rows run in ascending `index` order, rows with equal `index` in enumeration order. */
  lemma SortedRowsOrder(col: Column, v: Row)
    ensures Sorted(SortedRows(col), IndexLe)
    ensures multiset(SortedRows(col)) == multiset(Values(col.rows))
    ensures Ties(SortedRows(col), v, IndexLe) == Ties(Values(col.rows), v, IndexLe)
  {
    IndexLeIsPreorder();
    SortSorted(Values(col.rows), IndexLe);
    SortPermutes(Values(col.rows), IndexLe);
    SortStable(Values(col.rows), v, IndexLe);
  }

  /** The last stage of `itemRecord` after `rows` ran on `items`, each on the previous output. */
  function RunRows(rows: seq<Row>, items: seq<Item>, re: RegexEngine): seq<Item>
    decreases |rows|
  {
    if rows == [] then items
    else RowQuery(rows[|rows| - 1], RunRows(rows[..|rows| - 1], items, re), re)
  }

  /** Running `a` and then `b` is running `a + b`: each row takes the previous row's output. */
  lemma {:induction false} RunRowsAppend(a: seq<Row>, b: seq<Row>, items: seq<Item>, re: RegexEngine)
    ensures RunRows(a + b, items, re) == RunRows(b, RunRows(a, items, re), re)
    decreases |b|
  {
    if b == [] {
      assert a + b == a;
    } else {
      var b' := b[..|b| - 1];
      assert (a + b)[..|a + b| - 1] == a + b';
      RunRowsAppend(a, b', items, re);
    }
  }

  /** A column's output for a playlist is a subsequence of that playlist's items. */
  lemma {:induction false} RunRowsSubseq(rows: seq<Row>, items: seq<Item>, re: RegexEngine)
    ensures IsSubseq(RunRows(rows, items, re), items)
    decreases |rows|
  {
    if rows == [] {
      SubseqReflexive(items);
    } else {
      var prev := RunRows(rows[..|rows| - 1], items, re);
      RunRowsSubseq(rows[..|rows| - 1], items, re);
      SubseqTransitive(RowQuery(rows[|rows| - 1], prev, re), prev, items);
    }
  }

  /** A column of order rows only, or of no rows, leaves every list as it is. */
  lemma {:induction false} OrderRowsKeepItems(rows: seq<Row>, items: seq<Item>, re: RegexEngine)
    requires forall r :: r in rows ==> r.op.OrderOp?
    ensures RunRows(rows, items, re) == items
    decreases |rows|
  {
    if rows != [] {
      assert rows[|rows| - 1] in rows;
      OrderRowsKeepItems(rows[..|rows| - 1], items, re);
    }
  }

  /** `data.records.filter((k) => playlists[k]).map((k) => playlists[k])`. */
  function Present(ids: seq<string>, playlists: PlaylistData): seq<(PlaylistRecord, seq<Item>)>
    decreases |ids|
  {
    if ids == [] then []
    else
      var rest := Present(ids[1..], playlists);
      match Get(playlists, ids[0])
      case None => rest
      case Some(e) => [e] + rest
  }

  /** The chosen playlists are exactly those of the `records` ids present in `playlists`. */
  lemma {:induction false} PresentMembers(ids: seq<string>, playlists: PlaylistData)
    ensures forall e :: e in Present(ids, playlists) <==> exists k :: k in ids && Get(playlists, k) == Some(e)
    decreases |ids|
  {
    if ids != [] {
      PresentMembers(ids[1..], playlists);
      assert forall k :: k in ids <==> k == ids[0] || k in ids[1..];
    }
  }

  /** The `output` record after the playlists `sel` went through `rows`. */
  function Outputs(sel: seq<(PlaylistRecord, seq<Item>)>, rows: seq<Row>, re: RegexEngine): Rec<string, seq<Item>>
    decreases |sel|
  {
    if sel == [] then []
    else
      var e := sel[|sel| - 1];
      Put(Outputs(sel[..|sel| - 1], rows, re), e.0.playlistId, RunRows(rows, e.1, re))
  }

  /** What `columnQuery` returns for a column. */
  function ColumnOutput(col: Column, playlists: PlaylistData, re: RegexEngine): Rec<string, seq<Item>> {
    Outputs(Present(col.records, playlists), SortedRows(col), re)
  }

  /** `columnQuery`: the outer loop over the chosen playlists, filling `output`. */
  method ColumnQuery(col: Column, playlists: PlaylistData, re: RegexEngine) returns (output: Rec<string, seq<Item>>)
    ensures output == ColumnOutput(col, playlists, re)
  {
    var sel := Present(col.records, playlists);
    var rows := SortedRows(col);
    output := FillOutput(sel, rows, re);
  }

  /** `columnQuery`'s outer loop: each chosen playlist's items go through the sorted rows into `output`. */
  method FillOutput(sel: seq<(PlaylistRecord, seq<Item>)>, rows: seq<Row>, re: RegexEngine) returns (output: Rec<string, seq<Item>>)
    ensures output == Outputs(sel, rows, re)
  {
    output := [];
    for j := 0 to |sel|
      invariant output == Outputs(sel[..j], rows, re)
    {
      var pr := sel[j].0;
      var last := ThreadRows(rows, sel[j].1, re);
      OutputsStep(sel, j, rows, re);
      output := Put(output, pr.playlistId, last);
    }
    assert sel[..|sel|] == sel;
  }

  /**
   * `columnQuery`'s inner loop: `itemRecord` starts as `[pi]` and each sorted row pushes
   * its output on the last list; the result is the last list.
   */
  method ThreadRows(rows: seq<Row>, pi: seq<Item>, re: RegexEngine) returns (last: seq<Item>)
    ensures last == RunRows(rows, pi, re)
  {
    var itemRecord := [pi];
    for r := 0 to |rows|
      invariant |itemRecord| == r + 1
      invariant itemRecord[r] == RunRows(rows[..r], pi, re)
    {
      RunRowsStep(rows, r, pi, re);
      itemRecord := itemRecord + [RowQuery(rows[r], itemRecord[r], re)];
    }
    assert rows[..|rows|] == rows;
    last := itemRecord[|rows|];
  }

  lemma RunRowsStep(rows: seq<Row>, r: nat, items: seq<Item>, re: RegexEngine)
    requires r < |rows|
    ensures RunRows(rows[..r + 1], items, re) == RowQuery(rows[r], RunRows(rows[..r], items, re), re)
  {
    assert rows[..r + 1][..r] == rows[..r];
  }

  lemma OutputsStep(sel: seq<(PlaylistRecord, seq<Item>)>, j: nat, rows: seq<Row>, re: RegexEngine)
    requires j < |sel|
    ensures Outputs(sel[..j + 1], rows, re) == Put(Outputs(sel[..j], rows, re), sel[j].0.playlistId, RunRows(rows, sel[j].1, re))
  {
    assert sel[..j + 1][..j] == sel[..j];
  }

  /** The output has an entry for a playlist id exactly when some chosen playlist's record carries it. */
  lemma {:induction false} OutputsKeys(sel: seq<(PlaylistRecord, seq<Item>)>, rows: seq<Row>, re: RegexEngine, k: string)
    ensures k in Keys(Outputs(sel, rows, re)) <==> exists e :: e in sel && e.0.playlistId == k
    decreases |sel|
  {
    if sel != [] {
      var init := sel[..|sel| - 1];
      var e := sel[|sel| - 1];
      OutputsKeys(init, rows, re, k);
      PutKeyIn(Outputs(init, rows, re), e.0.playlistId, RunRows(rows, e.1, re), k);
      LastSplit(sel);
    }
  }

  lemma LastSplit<T>(s: seq<T>)
    requires s != []
    ensures forall x :: x in s <==> x in s[..|s| - 1] || x == s[|s| - 1]
  {
    assert s == s[..|s| - 1] + [s[|s| - 1]];
  }

  /** The entry for a playlist is its items through every row, for the last chosen playlist of that id. */
  lemma {:induction false} OutputsValue(sel: seq<(PlaylistRecord, seq<Item>)>, rows: seq<Row>, re: RegexEngine, i: nat)
    requires i < |sel|
    requires forall j :: i < j < |sel| ==> sel[j].0.playlistId != sel[i].0.playlistId
    ensures Get(Outputs(sel, rows, re), sel[i].0.playlistId) == Some(RunRows(rows, sel[i].1, re))
    decreases |sel|
  {
    if i < |sel| - 1 {
      OutputsValue(sel[..|sel| - 1], rows, re, i);
    }
  }

  /**
   * `columnQuery` has an entry exactly for the record ids of the column's playlists that
   * are present in the playlist data.
   */
  lemma ColumnOutputKeys(col: Column, playlists: PlaylistData, re: RegexEngine, k: string)
    ensures k in Keys(ColumnOutput(col, playlists, re)) <==>
      exists id, e :: id in col.records && Get(playlists, id) == Some(e) && e.0.playlistId == k
  {
    var sel := Present(col.records, playlists);
    PresentMembers(col.records, playlists);
    OutputsKeys(sel, SortedRows(col), re, k);
    assert k in Keys(ColumnOutput(col, playlists, re)) <==> exists e :: e in sel && e.0.playlistId == k;
    if k in Keys(ColumnOutput(col, playlists, re)) {
      var e :| e in sel && e.0.playlistId == k;
      assert exists id :: id in col.records && Get(playlists, id) == Some(e);
    }
    if exists id, e :: id in col.records && Get(playlists, id) == Some(e) && e.0.playlistId == k {
      var id, e :| id in col.records && Get(playlists, id) == Some(e) && e.0.playlistId == k;
      assert e in sel;
    }
  }

  /** With no rows, each playlist's entry is its own item list. */
  lemma ZeroRowsGiveInput(col: Column, playlists: PlaylistData, re: RegexEngine, i: nat)
    requires col.rows == []
    requires i < |Present(col.records, playlists)|
    requires forall j :: i < j < |Present(col.records, playlists)| ==>
      Present(col.records, playlists)[j].0.playlistId != Present(col.records, playlists)[i].0.playlistId
    ensures Get(ColumnOutput(col, playlists, re), Present(col.records, playlists)[i].0.playlistId) ==
      Some(Present(col.records, playlists)[i].1)
  {
    OutputsValue(Present(col.records, playlists), SortedRows(col), re, i);
  }

  // ---------------------------------------------------------------------------
  // The whole document
  // ---------------------------------------------------------------------------

  /** The `output` record of `dataQuery` for the requested column ids. */
  function DataOutput(columns: Rec<string, Column>, requested: seq<string>, playlists: PlaylistData, re: RegexEngine)
    : Rec<string, Rec<string, seq<Item>>>
    decreases |requested|
  {
    if requested == [] then []
    else
      var out := DataOutput(columns, requested[..|requested| - 1], playlists, re);
      var c := requested[|requested| - 1];
      match Get(columns, c)
      case None => out
      case Some(col) => Put(out, c, ColumnOutput(col, playlists, re))
  }

  /** `dataQuery`: a loop over the requested ids that name a column. */
  method DataQuery(columns: Rec<string, Column>, requested: seq<string>, playlists: PlaylistData, re: RegexEngine)
    returns (output: Rec<string, Rec<string, seq<Item>>>)
    ensures output == DataOutput(columns, requested, playlists, re)
  {
    output := [];
    for j := 0 to |requested|
      invariant output == DataOutput(columns, requested[..j], playlists, re)
    {
      assert requested[..j + 1][..j] == requested[..j];
      var c := requested[j];
      var col := Get(columns, c);
      if col.Some? {
        var out := ColumnQuery(col.value, playlists, re);
        output := Put(output, c, out);
      }
    }
    assert requested[..|requested|] == requested;
  }

  /** The output keys are exactly the requested ids that exist, each with its column's output. */
  lemma {:induction false} DataOutputKeys(columns: Rec<string, Column>, requested: seq<string>, playlists: PlaylistData,
                                          re: RegexEngine, c: string)
    ensures c in Keys(DataOutput(columns, requested, playlists, re)) <==> c in requested && c in Keys(columns)
    ensures c in Keys(DataOutput(columns, requested, playlists, re)) ==>
      Get(DataOutput(columns, requested, playlists, re), c) == Some(ColumnOutput(Get(columns, c).value, playlists, re))
    decreases |requested|
  {
    if requested != [] {
      var init := requested[..|requested| - 1];
      DataOutputKeys(columns, init, playlists, re, c);
      assert forall x :: x in requested <==> x in init || x == requested[|requested| - 1];
    }
  }
}
