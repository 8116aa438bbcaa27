/**
 * The editor of one pipeline column: the items it shows with their list position,
 * the duration text, the rows it adds (with the default row of each menu entry),
 * the playlists it reads, the display order of its rows, its row count, and the
 * deletion of the column with renumbering of the others.
 */
module ColumnEditor {
  import opened Wrappers
  import opened JsRuntime
  import opened JsObject
  import opened Catalog
  import opened FiorModel
  import opened FiorQuery
  import opened Seqs
  import opened StableSort
  import opened RowEditor

  // ---------------------------------------------------------------------------
  // Shown items
  // ---------------------------------------------------------------------------

  /** An item with the position it is shown at: `{ ...pi, index }`. */
  datatype ShownItem = ShownItem(item: Item, index: nat)

  function ToShownItem(pi: Item, index: nat): ShownItem {
    ShownItem(pi, index)
  }

  /** The items behind a list of shown items. */
  function ItemsOf(shown: seq<ShownItem>): (items: seq<Item>)
    ensures |items| == |shown| && forall i :: 0 <= i < |shown| ==> items[i] == shown[i].item
  {
    seq(|shown|, i requires 0 <= i < |shown| => shown[i].item)
  }

  /** `items.map(toShownItem)`: every item, unchanged, with its list position as `index`. */
  function Shown(items: seq<Item>): (shown: seq<ShownItem>)
    ensures ItemsOf(shown) == items
    ensures forall i :: 0 <= i < |shown| ==> shown[i].index == i
  {
    seq(|items|, i requires 0 <= i < |items| => ToShownItem(items[i], i))
  }

  // ---------------------------------------------------------------------------
  // Duration text
  // ---------------------------------------------------------------------------

  /** The hour, minute and second parts of a parsed duration; absent parts are `None`. */
  datatype Clock = Clock(hours: Option<nat>, minutes: Option<nat>, seconds: Option<nat>)

  /** A number part in string concatenation: its digits, or `"undefined"`. */
  function PartText(p: Option<nat>): string {
    if p.Some? then NatToString(p.value) else "undefined"
  }

  /** `d.seconds?.toString().padStart(2, "0")` in string concatenation. */
  function SecondsText(p: Option<nat>): string {
    if p.Some? then PadStart(NatToString(p.value), 2, '0') else "undefined"
  }

  /** `dMS`: minutes, a colon and the padded seconds. */
  function MinutesSeconds(d: Clock): string {
    PartText(d.minutes) + ":" + SecondsText(d.seconds)
  }

  /** `displayDuration(d)`. */
  function DisplayDuration(d: Clock): string {
    if d.hours.Some? && d.hours.value != 0 then NatToString(d.hours.value) + ":" + PadStart(MinutesSeconds(d), 5, '0')
    else MinutesSeconds(d)
  }

  /** A clock part as two digits. */
  function TwoDigits(x: nat): (s: string)
    requires x < 100
    ensures |s| == 2 && AllDigits(s) && DecimalValue(s) == x
  {
    TwoDigitsFacts(x);
    PadStart(NatToString(x), 2, '0')
  }

  lemma TwoDigitsFacts(x: nat)
    requires x < 100
    ensures var s := PadStart(NatToString(x), 2, '0'); |s| == 2 && AllDigits(s) && DecimalValue(s) == x
    ensures x < 10 ==> |NatToString(x)| == 1
    ensures x >= 10 ==> |NatToString(x)| == 2
  {
    var s := PadStart(NatToString(x), 2, '0');
    if x < 10 {
      assert NatToString(x) == [DigitChar(x)];
      assert s == ['0', DigitChar(x)];
      assert s[..1] == ['0'];
      assert s[..0] == [];
      assert DecimalValue(s[..1]) == 0;
    } else {
      assert NatToString(x / 10) == [DigitChar(x / 10)];
      assert s == NatToString(x);
      DecimalValueOfNatToString(x);
    }
  }

  /** Without hours, a duration shows as minutes, a colon and two-digit seconds. */
  lemma DisplayMinutes(h: Option<nat>, m: nat, s: nat)
    requires s < 60 && (h.None? || h == Some(0))
    ensures DisplayDuration(Clock(h, Some(m), Some(s))) == NatToString(m) + ":" + TwoDigits(s)
  {
  }

  /** With hours, a duration shows as `h:mm:ss`: the minutes are zero-padded to two digits as well. */
  lemma DisplayHours(h: nat, m: nat, s: nat)
    requires h != 0 && m < 60 && s < 60
    ensures DisplayDuration(Clock(Some(h), Some(m), Some(s))) == NatToString(h) + ":" + TwoDigits(m) + ":" + TwoDigits(s)
  {
    var d := Clock(Some(h), Some(m), Some(s));
    var hc, mm, ss := NatToString(h) + ":", TwoDigits(m), TwoDigits(s);
    var padded := PadStart(MinutesSeconds(d), 5, '0');
    DisplayWithHours(d);
    assert padded == (mm + ":") + ss by {
      assert MinutesSeconds(d) == NatToString(m) + ":" + ss;
      PaddedMinutes(m, ss);
    }
    RegroupHours(DisplayDuration(d), hc, padded, mm, ss);
  }

  /** A duration with non-zero hours shows the hours, a colon and the padded `m:ss` part. */
  lemma DisplayWithHours(d: Clock)
    requires d.hours.Some? && d.hours.value != 0
    ensures DisplayDuration(d) == NatToString(d.hours.value) + ":" + PadStart(MinutesSeconds(d), 5, '0')
  {
  }

  /** `h:` followed by the padded `mm:ss` part is `h:mm:ss`. */
  lemma RegroupHours(text: string, hc: string, padded: string, mm: string, ss: string)
    requires text == hc + padded && padded == (mm + ":") + ss
    ensures text == hc + mm + ":" + ss
  {
    AppendAssoc(hc, mm + ":", ss);
    AppendAssoc(hc, mm, ":");
  }

  /** `m:ss`, padded with "0" to five characters, is `mm:ss`. */
  lemma PaddedMinutes(m: nat, ss: string)
    requires m < 60 && |ss| == 2
    ensures PadStart(NatToString(m) + ":" + ss, 5, '0') == TwoDigits(m) + ":" + ss
  {
    TwoDigitsFacts(m);
    var ms := NatToString(m) + ":" + ss;
    if m < 10 {
      assert PadStart(ms, 5, '0') == ['0'] + ms;
      var d := NatToString(m);
      assert TwoDigits(m) == ['0'] + d by {
        assert TwoDigits(m) == PadStart(d, 2, '0');
      }
      assert ['0'] + ms == (['0'] + d) + ":" + ss;
    }
  }

  // ---------------------------------------------------------------------------
  // New rows
  // ---------------------------------------------------------------------------

  /** The entries of the "+Filter" and "+Order" menus. */
  datatype FilterChoice = AddSearch | AddCheck | AddRandomSelect
  datatype OrderChoice = AddSort | AddRandomise

  /** The filter each "+Filter" entry creates; the random seed comes from `randomString()`. */
  function NewFilter(choice: FilterChoice, seed: string): Filter {
    match choice
    case AddSearch => Search([], "", false)
    case AddCheck => Check(Unset, Eq, "")
    case AddRandomSelect => RandomSelect([], seed, 0)
  }

  /** The order each "+Order" entry creates. */
  function NewOrder(choice: OrderChoice, seed: string): Order {
    match choice
    case AddSort => SortBy([])
    case AddRandomise => Randomize(seed)
  }

  /** A new row changes no output until it is edited: every default row returns its input. */
  lemma NewRowsAreNoOps(fc: FilterChoice, oc: OrderChoice, seed: string, index: int, items: seq<Item>, re: RegexEngine)
    ensures RowQuery(Row(FilterOp(false, NewFilter(fc, seed)), index), items, re) == items
    ensures RowQuery(Row(OrderOp(false, NewOrder(oc, seed)), index), items, re) == items
  {
  }

  /** As written, the evaluator throws on a new check row, whose `cols` is undefined. */
  lemma NewCheckRowThrows(seed: string, not: bool, index: int, items: seq<Item>, re: RegexEngine)
    ensures RowQueryAsWritten(Row(FilterOp(not, NewFilter(AddCheck, seed)), index), items, re) == Failure(TypeError)
  {
  }

  /** `colItem.rows[row] = rowItem` for a row id not yet in the column: the row goes last, the others stay. */
  lemma AddedRowGoesLast(col: Column, row: string, op: Op, n: int)
    requires row !in Keys(col.rows)
    ensures Put(col.rows, row, Row(op, n)) == col.rows + [(row, Row(op, n))]
    ensures Keys(Put(col.rows, row, Row(op, n))) == Keys(col.rows) + [row]
  {
    PutAbsent(col.rows, row, Row(op, n));
  }

  // ---------------------------------------------------------------------------
  // Display order of the rows
  // ---------------------------------------------------------------------------

  /** `colItem.rows[id].index`, for an id of the column. */
  function IndexOf(rows: Rec<string, Row>, id: string): int {
    if Get(rows, id).Some? then Get(rows, id).value.index else 0
  }

  /** The comparison `colItem.rows[a].index - colItem.rows[b].index <= 0`. */
  function RowIdLe(rows: Rec<string, Row>): (string, string) -> bool {
    (a: string, b: string) => IndexOf(rows, a) - IndexOf(rows, b) <= 0
  }

  /** `rows.toSorted(...)`: the row ids in ascending `index`. */
  function DisplayedRows(rowIds: seq<string>, rows: Rec<string, Row>): seq<string> {
    Sort(rowIds, RowIdLe(rows))
  }

  /** The rows are shown in ascending `index`, each id once, ids with equal `index` in their list order. */
  lemma DisplayedRowsOrder(rowIds: seq<string>, rows: Rec<string, Row>, v: string)
    ensures Sorted(DisplayedRows(rowIds, rows), RowIdLe(rows))
    ensures multiset(DisplayedRows(rowIds, rows)) == multiset(rowIds)
    ensures Ties(DisplayedRows(rowIds, rows), v, RowIdLe(rows)) == Ties(rowIds, v, RowIdLe(rows))
  {
    var le := RowIdLe(rows);
    assert TotalPreorder(le);
    SortSorted(rowIds, le);
    SortPermutes(rowIds, le);
    SortStable(rowIds, v, le);
  }

  // ---------------------------------------------------------------------------
  // The row count and the drawer
  // ---------------------------------------------------------------------------

  /** `Object.values(o).reduce((n, pi) => n + pi.length, 0)`. */
  function RowCount(lists: seq<seq<Item>>): nat
    decreases |lists|
  {
    if lists == [] then 0 else RowCount(lists[..|lists| - 1]) + |lists[|lists| - 1]|
  }

  /** `Object.values(o).flatMap((pi) => pi)`. */
  function Flatten(lists: seq<seq<Item>>): seq<Item>
    decreases |lists|
  {
    if lists == [] then [] else lists[0] + Flatten(lists[1..])
  }

  lemma {:induction false} FlattenSnoc(lists: seq<seq<Item>>)
    requires lists != []
    ensures Flatten(lists) == Flatten(lists[..|lists| - 1]) + lists[|lists| - 1]
    decreases |lists|
  {
    if |lists| > 1 {
      FlattenSnoc(lists[1..]);
      assert lists[1..][..|lists[1..]| - 1] == lists[..|lists| - 1][1..];
    } else {
      assert lists[..0] == [];
    }
  }

  /** The count beside the drawer is the number of items the drawer lists. */
  lemma {:induction false} RowCountIsDrawerLength(lists: seq<seq<Item>>)
    ensures RowCount(lists) == |Flatten(lists)|
    ensures RowCount(lists) == |Shown(Flatten(lists))|
    decreases |lists|
  {
    if lists != [] {
      RowCountIsDrawerLength(lists[..|lists| - 1]);
      FlattenSnoc(lists);
    }
  }

  // ---------------------------------------------------------------------------
  // The column editor
  // ---------------------------------------------------------------------------

  /** `Object.keys(records).map((pl) => [pl, colItem.records.includes(pl)])`. */
  function PlaylistFlags(records: seq<string>, chosen: seq<string>): (flags: seq<(string, bool)>)
    ensures Names(flags) == records
    ensures forall i :: 0 <= i < |flags| ==> (flags[i].1 <==> records[i] in chosen)
  {
    seq(|records|, i requires 0 <= i < |records| => (records[i], records[i] in chosen))
  }

  /** The editor of column `id` of `doc`: the row ids it lists and its playlist menu. */
  class ColumnEditor {
    const doc: Document
    const id: string
    var rowIds: seq<string>
    var playlists: seq<(string, bool)>

    constructor(doc: Document, id: string, recordIds: seq<string>)
      requires Get(doc.columns, id).Some?
      ensures this.doc == doc && this.id == id
      ensures rowIds == Keys(Get(doc.columns, id).value.rows)
      ensures playlists == PlaylistFlags(recordIds, Get(doc.columns, id).value.records)
    {
      this.doc := doc;
      this.id := id;
      rowIds := Keys(Get(doc.columns, id).value.rows);
      playlists := PlaylistFlags(recordIds, Get(doc.columns, id).value.records);
    }

    /** `addRow`: the new row, under a fresh id, gets `index` equal to the number of listed rows. */
    method AddRow(row: string, op: Op)
      requires Get(doc.columns, id).Some?
      modifies this, doc
      ensures var col := Get(old(doc.columns), id).value;
        doc.columns == Put(old(doc.columns), id, col.(rows := Put(col.rows, row, Row(op, |old(rowIds)|))))
      ensures rowIds == old(rowIds) + [row] && playlists == old(playlists)
    {
      var col := Get(doc.columns, id).value;
      var index := |rowIds|;
      doc.columns := Put(doc.columns, id, col.(rows := Put(col.rows, row, Row(op, index))));
      rowIds := rowIds + [row];
    }

    /** The editable title: `colItem.name = e.value`. */
    method Rename(name: string)
      requires Get(doc.columns, id).Some?
      modifies doc
      ensures var col := Get(old(doc.columns), id).value;
        doc.columns == Put(old(doc.columns), id, col.(name := name))
    {
      var col := Get(doc.columns, id).value;
      doc.columns := Put(doc.columns, id, col.(name := name));
    }

    /** `reloadRows`: list the column's row ids again, after a row was deleted. */
    method ReloadRows()
      requires Get(doc.columns, id).Some?
      modifies this
      ensures rowIds == Keys(Get(doc.columns, id).value.rows) && playlists == old(playlists)
    {
      rowIds := Keys(Get(doc.columns, id).value.rows);
    }

    /** A playlist's menu item: flip flag `i`, and `colItem.records` becomes the ids flagged. */
    method TogglePlaylist(i: nat)
      requires Get(doc.columns, id).Some? && i < |playlists|
      modifies this, doc
      ensures playlists == ToggleAt(old(playlists), i) && rowIds == old(rowIds)
      ensures var col := Get(old(doc.columns), id).value;
        doc.columns == Put(old(doc.columns), id, col.(records := Chosen(playlists)))
    {
      playlists := ToggleAt(playlists, i);
      var col := Get(doc.columns, id).value;
      doc.columns := Put(doc.columns, id, col.(records := Chosen(playlists)));
    }
  }

  /**
   * With distinct playlist ids, toggling playlist `i` adds or removes exactly that id from
   * the column's records and keeps them in record order.
   */
  lemma ToggledRecords(flags: seq<(string, bool)>, i: nat, pl: string)
    requires i < |flags| && forall a, b :: 0 <= a < b < |flags| ==> flags[a].0 != flags[b].0
    ensures pl in Chosen(ToggleAt(flags, i)) <==> if pl == flags[i].0 then !flags[i].1 else pl in Chosen(flags)
    ensures IsSubseq(Chosen(ToggleAt(flags, i)), Names(flags))
  {
    ToggleChosen(flags, i, pl);
    ChosenIsSubseq(ToggleAt(flags, i));
    assert Names(ToggleAt(flags, i)) == Names(flags);
  }

  /** The playlist button's label: the title of the one playlist chosen, otherwise how many are chosen. */
  function PlaylistLabel(flags: seq<(string, bool)>, title: string -> string): string {
    var c := Chosen(flags);
    if |c| == 1 then title(c[0]) else NatToString(|c|) + " selected"
  }

  /** The label shows a title exactly when one playlist is chosen, and a count ending in " selected" otherwise. */
  lemma PlaylistLabelCases(flags: seq<(string, bool)>, title: string -> string)
    ensures |Chosen(flags)| == 1 ==> PlaylistLabel(flags, title) == title(Chosen(flags)[0])
    ensures |Chosen(flags)| != 1 ==> var l := PlaylistLabel(flags, title);
      |l| > 9 && l[|l| - 9..] == " selected" && DecimalValue(l[..|l| - 9]) == |Chosen(flags)|
  {
    var c := Chosen(flags);
    if |c| != 1 {
      var l := NatToString(|c|) + " selected";
      assert l[..|l| - 9] == NatToString(|c|);
      DecimalValueOfNatToString(|c|);
    }
  }

  /** The column menu's "Delete": `delete items.columns[column]`, then every column is renumbered. */
  method DeleteColumn(doc: Document, c: string)
    modifies doc
    ensures doc.columns == Renumbered(Remove(old(doc.columns), c), ColumnWithIndex)
  {
    var columns := Renumber(Remove(doc.columns, c), ColumnWithIndex);
    doc.columns := columns;
  }

  /**
   * After a column delete the document holds every other column, in its order, with
   * `index` values 0 to n-1 and nothing else changed.
   */
  lemma RenumberedColumns(columns: Rec<string, Column>, c: string)
    requires DistinctKeys(columns)
    ensures var r := Renumbered(Remove(columns, c), ColumnWithIndex);
      Get(r, c) == None &&
      IsSubseq(Keys(r), Keys(columns)) &&
      (forall i :: 0 <= i < |r| ==> r[i].1.index == i) &&
      (forall k :: k != c && k in Keys(columns) ==>
        Get(r, k).Some? && Get(r, k).value == Get(columns, k).value.(index := Get(r, k).value.index))
  {
    var rem := Remove(columns, c);
    var r := Renumbered(rem, ColumnWithIndex);
    RenumberedKeys(rem, ColumnWithIndex);
    KeysOfSubseq(rem, columns);
    forall k | k != c && k in Keys(columns)
      ensures Get(r, k).Some? && Get(r, k).value == Get(columns, k).value.(index := Get(r, k).value.index)
    {
      RenumberedColumnAt(columns, c, k);
    }
  }

  /** One remaining column after the delete: present, with only its `index` changed. */
  lemma RenumberedColumnAt(columns: Rec<string, Column>, c: string, k: string)
    requires DistinctKeys(columns) && k != c && k in Keys(columns)
    ensures var r := Renumbered(Remove(columns, c), ColumnWithIndex);
      Get(r, k).Some? && Get(r, k).value == Get(columns, k).value.(index := Get(r, k).value.index)
  {
    var rem := Remove(columns, c);
    assert Get(rem, k) == Get(columns, k);
    var i := RenumberedAt(rem, ColumnWithIndex, k);
  }
}
