/**
 * The client's data model: playlist items and records as the client holds them, the
 * pipeline document (columns of rows, each row a filter or an order), and the
 * playlist data a query runs on.
 */
module FiorModel {
  import opened Wrappers
  import opened JsRuntime
  import opened JsObject
  import opened Catalog

  /** A `Date`: always an object (so always truthy); `text` is what its `toString` gives. */
  datatype Moment = Moment(text: string)

  /** A playlist item as the client receives it. */
  datatype Item = Item(
    videoId: string,
    title: string,
    description: string,
    note: string,
    position: int,
    channelTitle: string,
    channelId: string,
    duration: string,
    addedAt: Moment,
    publishedAt: Moment)

  /** A field value as JavaScript sees it: a string, a number or an object. */
  datatype FieldValue = Str(s: string) | Num(n: int) | Obj(m: Moment)

  /** JavaScript truthiness: `""` and `0` are falsy, every object is truthy. */
  predicate Truthy(v: FieldValue) {
    match v
    case Str(s) => s != ""
    case Num(n) => n != 0
    case Obj(_) => true
  }

  /** `v.toString()`. */
  function Text(v: FieldValue): string {
    match v
    case Str(s) => s
    case Num(n) => IntToString(n)
    case Obj(m) => m.text
  }

  /** `pi[col]` for an item field; the synthetic `index` is not a field of the item. */
  function Field(pi: Item, col: Key): FieldValue
    requires col != Index
  {
    match col
    case VideoId => Str(pi.videoId)
    case Title => Str(pi.title)
    case Description => Str(pi.description)
    case Note => Str(pi.note)
    case Position => Num(pi.position)
    case ChannelTitle => Str(pi.channelTitle)
    case ChannelId => Str(pi.channelId)
    case Duration => Str(pi.duration)
    case AddedAt => Obj(pi.addedAt)
    case PublishedAt => Obj(pi.publishedAt)
  }

  datatype Operator = Eq | Ne | Lt | Gt | Le | Ge

  /**
   * What a check row's `cols` holds at run time: `undefined` (a new check row), an
   * array of keys (the declared type), or the editor's key-to-flag object.
   */
  datatype CheckCols = Unset | Listed(keys: seq<Key>) | Flags(flags: Rec<Key, bool>)

  datatype Filter =
    | Search(cols: seq<Key>, search: string, regex: bool)
    | Check(checkCols: CheckCols, operator: Operator, value: string)
    | RandomSelect(selectCols: seq<Key>, rngSeed: string, selectCount: int)

  datatype Order = SortBy(sortCols: seq<Key>) | Randomize(seed: string)

  /** A row of a column; an absent `not` or `rev` is `false`. */
  datatype Op = FilterOp(not: bool, filter: Filter) | OrderOp(rev: bool, order: Order)

  datatype Row = Row(op: Op, index: int)

  /** A pipeline column: the playlists it reads, its rows by id, its name and its place. */
  datatype Column = Column(records: seq<string>, rows: Rec<string, Row>, name: string, index: int)

  /** A playlist record as the client keeps it. */
  datatype PlaylistRecord = PlaylistRecord(
    playlistId: string,
    publishedAt: Moment,
    channelId: string,
    channelTitle: string,
    title: string,
    description: string,
    privacyStatus: string,
    thumbnail: Option<string>,
    playlistLength: int)

  /** Playlist id to its record and its items. */
  type PlaylistData = Rec<string, (PlaylistRecord, seq<Item>)>

  /** `forEach((r, i) => (r.index = i))` over the values of `r`, as a value. */
  function Renumbered<K, V>(r: Rec<K, V>, withIndex: (V, nat) -> V): (r': Rec<K, V>)
    ensures |r'| == |r|
    ensures forall i :: 0 <= i < |r| ==> r'[i] == (r[i].0, withIndex(r[i].1, i))
  {
    seq(|r|, i requires 0 <= i < |r| => (r[i].0, withIndex(r[i].1, i)))
  }

  /** Renumbering keeps every key in its place. */
  lemma RenumberedKeys<K, V>(r: Rec<K, V>, withIndex: (V, nat) -> V)
    ensures Keys(Renumbered(r, withIndex)) == Keys(r)
  {
  }

  /** After renumbering, each key finds its old value with its position as `index`. */
  lemma RenumberedAt<K(!new), V>(r: Rec<K, V>, withIndex: (V, nat) -> V, k: K) returns (i: nat)
    requires DistinctKeys(r) && k in Keys(r)
    ensures i < |r| && Get(r, k) == Some(r[i].1)
    ensures Get(Renumbered(r, withIndex), k) == Some(withIndex(r[i].1, i))
  {
    var r' := Renumbered(r, withIndex);
    i :| 0 <= i < |r| && Keys(r)[i] == k;
    GetAt(r, i);
    assert DistinctKeys(r') by {
      forall a, b | 0 <= a < b < |r'| ensures r'[a].0 != r'[b].0 {
        assert r'[a].0 == r[a].0 && r'[b].0 == r[b].0;
      }
    }
    GetAt(r', i);
  }

  function RowWithIndex(row: Row, i: nat): Row {
    row.(index := i)
  }

  function ColumnWithIndex(col: Column, i: nat): Column {
    col.(index := i)
  }

  /** The pipeline document the editors change in place (`items: FiorData`). */
  class Document {
    var columns: Rec<string, Column>

    constructor(columns: Rec<string, Column>)
      ensures this.columns == columns
    {
      this.columns := columns;
    }
  }
}
