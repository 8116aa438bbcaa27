/**
 * The core server's stored records: decoding a database row into a playlist record
 * or a playlist item, and item equality and hashing by video id.
 */
module StoreModel {
  import opened Wrappers
  import opened YouTubeApi

  /** A database cell as the decoder finds it: SQL `NULL`, or a value of one of the column types used. */
  datatype Cell = Null | Text(s: string) | Int4(i: i32) | Timestamp(t: DateTime)

  /** A result row: its cells by column position. */
  type Row = seq<Cell>

  /** Why `row.try_get(i)` failed: the column position it was asked for. */
  datatype DecodeError = ColumnError(index: nat)

  function GetText(row: Row, i: nat): Result<string, DecodeError> {
    if i < |row| && row[i].Text? then Ok(row[i].s) else Failure(ColumnError(i))
  }

  function GetInt(row: Row, i: nat): Result<i32, DecodeError> {
    if i < |row| && row[i].Int4? then Ok(row[i].i) else Failure(ColumnError(i))
  }

  function GetTime(row: Row, i: nat): Result<DateTime, DecodeError> {
    if i < |row| && row[i].Timestamp? then Ok(row[i].t) else Failure(ColumnError(i))
  }

  /** `result.ok()`. */
  function Ok_<T>(r: Result<T, DecodeError>): Option<T> {
    if r.Ok? then Some(r.value) else None
  }

  datatype StoredRecord = StoredRecord(
    playlistId: string,
    publishedAt: DateTime,
    channelId: string,
    channelTitle: string,
    title: string,
    description: string,
    privacyStatus: string,
    thumbnail: Option<string>,
    playlistLength: i32,
    readCount: i32,
    recordedAt: DateTime)

  datatype StoredItem = StoredItem(
    videoId: string,
    title: string,
    description: string,
    note: string,
    position: i32,
    channelTitle: string,
    channelId: string,
    addedAt: DateTime,
    publishedAt: DateTime)

  /** The column type each required column of a record row must have. */
  datatype ColumnType = TextColumn | IntColumn | TimeColumn

  predicate Fits(row: Row, i: nat, ty: ColumnType) {
    i < |row| &&
    match ty
    case TextColumn => row[i].Text?
    case IntColumn => row[i].Int4?
    case TimeColumn => row[i].Timestamp?
  }

  /** The type a record row's column must have; column 7, the thumbnail, is not required. */
  function RecordColumn(i: nat): Option<ColumnType> {
    if i == 0 then Some(TextColumn)
    else if i == 1 then Some(TimeColumn)
    else if 2 <= i <= 6 then Some(TextColumn)
    else if i == 8 || i == 9 then Some(IntColumn)
    else if i == 10 then Some(TimeColumn)
    else None
  }

  /** The type an item row's column must have; column 1, the playlist id, is not read. */
  function ItemColumn(i: nat): Option<ColumnType> {
    if i == 0 || 2 <= i <= 4 then Some(TextColumn)
    else if i == 5 then Some(IntColumn)
    else if i == 6 || i == 7 then Some(TextColumn)
    else if i == 8 || i == 9 then Some(TimeColumn)
    else None
  }

  /** Every column `schema` requires, below `bound`, has its type. */
  predicate FitsBelow(row: Row, schema: nat -> Option<ColumnType>, bound: nat)
    decreases bound
  {
    bound == 0 ||
    (FitsBelow(row, schema, bound - 1) && (schema(bound - 1).Some? ==> Fits(row, bound - 1, schema(bound - 1).value)))
  }

  /** `FitsBelow` says what its name says of every column below the bound. */
  lemma {:induction false} FitsBelowMeans(row: Row, schema: nat -> Option<ColumnType>, bound: nat)
    ensures FitsBelow(row, schema, bound) <==>
      forall j: nat :: j < bound && schema(j).Some? ==> Fits(row, j, schema(j).value)
    decreases bound
  {
    if bound > 0 {
      FitsBelowMeans(row, schema, bound - 1);
    }
  }

  /**
   * What a `try_from` built from `?` steps in column order promises: it succeeds exactly when
   * every required column has its type, and otherwise names the first required column that does not.
   */
  predicate DecodesAsSchema<T>(row: Row, schema: nat -> Option<ColumnType>, r: Result<T, DecodeError>) {
    (r.Ok? <==> FitsBelow(row, schema, 11)) &&
    (r.Failure? ==> var i := r.error.index;
      schema(i).Some? && !Fits(row, i, schema(i).value) && FitsBelow(row, schema, i))
  }

  /**
   * `PlaylistRecord::try_from(row)`, each `?` returning the first failing column's error.
   * A row decodes exactly when every required column has its type, the error naming the
   * first one that does not. The thumbnail is `None` when its cell is missing, `NULL` or not
   * text, and never causes an error.
   */
  function DecodeRecord(row: Row): (r: Result<StoredRecord, DecodeError>)
    ensures DecodesAsSchema(row, RecordColumn, r)
    ensures r.Ok? ==> (r.value.thumbnail.Some? <==> 7 < |row| && row[7].Text?)
  {
    var playlistId := GetText(row, 0);
    if playlistId.Failure? then Failure(playlistId.error) else
    var publishedAt := GetTime(row, 1);
    if publishedAt.Failure? then Failure(publishedAt.error) else
    var channelId := GetText(row, 2);
    if channelId.Failure? then Failure(channelId.error) else
    var channelTitle := GetText(row, 3);
    if channelTitle.Failure? then Failure(channelTitle.error) else
    var title := GetText(row, 4);
    if title.Failure? then Failure(title.error) else
    var description := GetText(row, 5);
    if description.Failure? then Failure(description.error) else
    var privacyStatus := GetText(row, 6);
    if privacyStatus.Failure? then Failure(privacyStatus.error) else
    var thumbnail := Ok_(GetText(row, 7));
    var playlistLength := GetInt(row, 8);
    if playlistLength.Failure? then Failure(playlistLength.error) else
    var readCount := GetInt(row, 9);
    if readCount.Failure? then Failure(readCount.error) else
    var recordedAt := GetTime(row, 10);
    if recordedAt.Failure? then Failure(recordedAt.error) else
    Ok(StoredRecord(playlistId.value, publishedAt.value, channelId.value, channelTitle.value, title.value,
      description.value, privacyStatus.value, thumbnail, playlistLength.value, readCount.value, recordedAt.value))
  }

  /**
   * `PlaylistItem::try_from(row)`: a row decodes exactly when columns 0 and 2 to 9 have their
   * types, the error naming the first that does not.
   */
  function DecodeItem(row: Row): (r: Result<StoredItem, DecodeError>)
    ensures DecodesAsSchema(row, ItemColumn, r)
  {
    var videoId := GetText(row, 0);
    if videoId.Failure? then Failure(videoId.error) else
    var title := GetText(row, 2);
    if title.Failure? then Failure(title.error) else
    var description := GetText(row, 3);
    if description.Failure? then Failure(description.error) else
    var note := GetText(row, 4);
    if note.Failure? then Failure(note.error) else
    var position := GetInt(row, 5);
    if position.Failure? then Failure(position.error) else
    var channelTitle := GetText(row, 6);
    if channelTitle.Failure? then Failure(channelTitle.error) else
    var channelId := GetText(row, 7);
    if channelId.Failure? then Failure(channelId.error) else
    var addedAt := GetTime(row, 8);
    if addedAt.Failure? then Failure(addedAt.error) else
    var publishedAt := GetTime(row, 9);
    if publishedAt.Failure? then Failure(publishedAt.error) else
    Ok(StoredItem(videoId.value, title.value, description.value, note.value, position.value,
      channelTitle.value, channelId.value, addedAt.value, publishedAt.value))
  }

  /** The playlist id in column 1 of an item row plays no part in decoding it. */
  lemma DecodeItemSkipsPlaylistId(row: Row, c: Cell)
    requires |row| > 1
    ensures DecodeItem(row[1 := c]) == DecodeItem(row)
  {
    var other := row[1 := c];
    GettersAgree(other, row, 0);
    GettersAgree(other, row, 2);
    GettersAgree(other, row, 3);
    GettersAgree(other, row, 4);
    GettersAgree(other, row, 5);
    GettersAgree(other, row, 6);
    GettersAgree(other, row, 7);
    GettersAgree(other, row, 8);
    GettersAgree(other, row, 9);
  }

  /** Two rows of one length with the same cell `i` read alike at `i`. */
  lemma GettersAgree(a: Row, b: Row, i: nat)
    requires |a| == |b| && (i < |a| ==> a[i] == b[i])
    ensures GetText(a, i) == GetText(b, i) && GetInt(a, i) == GetInt(b, i) && GetTime(a, i) == GetTime(b, i)
  {
  }

  /** `PartialEq for PlaylistItem`: items are the same item when their video ids are. */
  predicate ItemEq(a: StoredItem, b: StoredItem) {
    a.videoId == b.videoId
  }

  /** `Hash for PlaylistItem`: only the video id is fed to the hasher, modelled as any function of it. */
  function ItemHash(a: StoredItem, hashId: string -> nat): nat {
    hashId(a.videoId)
  }

  /** `ItemEq` is an equivalence (as `Eq` demands), equal items hash alike, and items differing in any other field can be equal. */
  lemma ItemEqIsEquivalence(a: StoredItem, b: StoredItem, c: StoredItem, hashId: string -> nat)
    ensures ItemEq(a, a)
    ensures ItemEq(a, b) ==> ItemEq(b, a)
    ensures ItemEq(a, b) && ItemEq(b, c) ==> ItemEq(a, c)
    ensures ItemEq(a, b) ==> ItemHash(a, hashId) == ItemHash(b, hashId)
    ensures ItemEq(a, b) <==> a.videoId == b.videoId
  {
  }
}
