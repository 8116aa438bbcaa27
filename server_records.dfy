/**
 * The TypeScript server's projection of a YouTube `playlists.list` resource into the
 * playlist record it stores and returns, or `null` when a field it needs is missing.
 */
module ServerRecords {
  import opened JsRuntime

  datatype Thumbnail = Thumbnail(url: Js<string>)

  datatype Thumbnails = Thumbnails(standard: Js<Thumbnail>, medium: Js<Thumbnail>)

  datatype PlaylistSnippet = PlaylistSnippet(
    publishedAt: Js<string>,
    channelId: Js<string>,
    channelTitle: Js<string>,
    title: Js<string>,
    description: Js<string>,
    thumbnails: Js<Thumbnails>)

  datatype PlaylistStatus = PlaylistStatus(privacyStatus: Js<string>)

  datatype PlaylistContentDetails = PlaylistContentDetails(itemCount: Js<int>)

  /** The parts of an `ApiPlaylist` the projection reads; any of them may be missing. */
  datatype ApiPlaylist = ApiPlaylist(
    id: Js<string>,
    snippet: Js<PlaylistSnippet>,
    status: Js<PlaylistStatus>,
    contentDetails: Js<PlaylistContentDetails>)

  /** `new Date(text)`: a `Date` object, an invalid one for text that is not a date; its time value is not modelled. */
  datatype JsDate = JsDate(source: string)

  /** `a ?? b`. */
  function Coalesce<T>(a: Js<T>, b: Js<T>): (r: Js<T>)
    ensures IsNullish(r) <==> IsNullish(a) && IsNullish(b)
    ensures !IsNullish(a) ==> r == a
  {
    if IsNullish(a) then b else a
  }

  /** `record.snippet?.<field>`, for each snippet field read. */
  function PublishedAtText(record: ApiPlaylist): Js<string> {
    if record.snippet.Defined? then record.snippet.value.publishedAt else Undefined
  }

  function ChannelId(record: ApiPlaylist): Js<string> {
    if record.snippet.Defined? then record.snippet.value.channelId else Undefined
  }

  function ChannelTitle(record: ApiPlaylist): Js<string> {
    if record.snippet.Defined? then record.snippet.value.channelTitle else Undefined
  }

  function Title(record: ApiPlaylist): Js<string> {
    if record.snippet.Defined? then record.snippet.value.title else Undefined
  }

  function Description(record: ApiPlaylist): Js<string> {
    if record.snippet.Defined? then record.snippet.value.description else Undefined
  }

  /** `record.snippet?.thumbnails?.standard?.url`. */
  function StandardUrl(record: ApiPlaylist): Js<string> {
    if record.snippet.Defined? && record.snippet.value.thumbnails.Defined? && record.snippet.value.thumbnails.value.standard.Defined?
    then record.snippet.value.thumbnails.value.standard.value.url
    else Undefined
  }

  /** `record.snippet?.thumbnails?.medium?.url`. */
  function MediumUrl(record: ApiPlaylist): Js<string> {
    if record.snippet.Defined? && record.snippet.value.thumbnails.Defined? && record.snippet.value.thumbnails.value.medium.Defined?
    then record.snippet.value.thumbnails.value.medium.value.url
    else Undefined
  }

  /** `record.status?.privacyStatus`. */
  function PrivacyStatus(record: ApiPlaylist): Js<string> {
    if record.status.Defined? then record.status.value.privacyStatus else Undefined
  }

  /** `record.contentDetails?.itemCount`. */
  function ItemCount(record: ApiPlaylist): Js<int> {
    if record.contentDetails.Defined? then record.contentDetails.value.itemCount else Undefined
  }

  /** The object literal `res`, its properties in their order. */
  datatype RecordBody = RecordBody(
    playlistId: Js<string>,
    publishedAt: Js<JsDate>,
    channelId: Js<string>,
    channelTitle: Js<string>,
    title: Js<string>,
    description: Js<string>,
    privacyStatus: Js<string>,
    thumbnail: Js<string>,
    playlistLength: Js<int>)

  /**
   * The object literal built from the playlist. The publish date is always a `Date` object,
   * the description defaults to `""`, and the thumbnail is the standard URL, else the medium
   * URL, else `""`.
   */
  function BuildBody(record: ApiPlaylist): (res: RecordBody)
    ensures res.publishedAt.Defined?
    ensures res.description == if IsNullish(Description(record)) then Defined("") else Description(record)
    ensures res.thumbnail ==
      if !IsNullish(StandardUrl(record)) then StandardUrl(record)
      else if !IsNullish(MediumUrl(record)) then MediumUrl(record)
      else Defined("")
  {
    var date := Coalesce(PublishedAtText(record), Defined(""));
    RecordBody(
      playlistId := record.id,
      publishedAt := Defined(JsDate(date.value)),
      channelId := ChannelId(record),
      channelTitle := ChannelTitle(record),
      title := Title(record),
      description := Coalesce(Description(record), Defined("")),
      privacyStatus := PrivacyStatus(record),
      thumbnail := Coalesce(StandardUrl(record), Coalesce(MediumUrl(record), Defined(""))),
      playlistLength := Coalesce(ItemCount(record), Undefined))
  }

  /** `Object.values(res).map(isNullish)`, property by property. */
  function Nullness(res: RecordBody): seq<bool> {
    [IsNullish(res.playlistId), IsNullish(res.publishedAt), IsNullish(res.channelId), IsNullish(res.channelTitle),
     IsNullish(res.title), IsNullish(res.description), IsNullish(res.privacyStatus), IsNullish(res.thumbnail),
     IsNullish(res.playlistLength)]
  }

  /** The playlist has every part the record needs: its id, channel id, channel title, title, privacy status and item count. */
  predicate IsComplete(record: ApiPlaylist) {
    record.id.Defined? && record.snippet.Defined? &&
    record.snippet.value.channelId.Defined? && record.snippet.value.channelTitle.Defined? && record.snippet.value.title.Defined? &&
    record.status.Defined? && record.status.value.privacyStatus.Defined? &&
    record.contentDetails.Defined? && record.contentDetails.value.itemCount.Defined?
  }

  /**
   * `recordResponseBody`: `null` when some property of the built object is nullish, which is
   * exactly when the playlist lacks one of the parts `IsComplete` names; otherwise the object,
   * every property of which is then defined.
   */
  function RecordResponseBody(record: ApiPlaylist): (r: Js<RecordBody>)
    ensures !r.Undefined?
    ensures r.Defined? <==> IsComplete(record)
    ensures r.Defined? ==> r.value == BuildBody(record) && forall i :: 0 <= i < |Nullness(r.value)| ==> !Nullness(r.value)[i]
  {
    var res := BuildBody(record);
    if true in Nullness(res) then Null else Defined(res)
  }

  /** A missing item count, or a missing content-details part, makes the result `null`. */
  lemma MissingItemCountIsNull(record: ApiPlaylist)
    requires IsNullish(ItemCount(record))
    ensures RecordResponseBody(record) == Null
  {
  }

  /** Neither the publish date nor the description nor the thumbnails decide whether the result is `null`. */
  lemma OptionalPartsNeverNull(record: ApiPlaylist, s: PlaylistSnippet, publishedAt: Js<string>, description: Js<string>, thumbnails: Js<Thumbnails>)
    requires record.snippet == Defined(s)
    ensures var s' := s.(publishedAt := publishedAt, description := description, thumbnails := thumbnails);
      RecordResponseBody(record.(snippet := Defined(s'))).Defined? == RecordResponseBody(record).Defined?
  {
  }
}
