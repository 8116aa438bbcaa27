/**
 * The parts of a YouTube Data API `playlistItems.list` response the servers read.
 * Every field may be absent from the JSON, so every field is optional. The same
 * shape serves the hand-written response types of the core server and the
 * generated `PlaylistItemListResponse` of the lambda server.
 */
module YouTubeApi {
  import opened Wrappers

  /** A `DateTime<Utc>`, parsed from an ISO 8601 string by the JSON decoder; its value is not inspected. */
  datatype DateTime = DateTime(text: string)

  /** Rust's `u32`. */
  newtype u32 = x: int | 0 <= x < 0x1_0000_0000

  /** Rust's `i32`. */
  newtype i32 = x: int | -0x8000_0000 <= x < 0x8000_0000

  datatype Snippet = Snippet(
    publishedAt: Option<DateTime>,
    channelId: Option<string>,
    title: Option<string>,
    description: Option<string>,
    channelTitle: Option<string>,
    position: Option<u32>)

  datatype ContentDetails = ContentDetails(
    videoId: Option<string>,
    videoPublishedAt: Option<DateTime>,
    note: Option<string>)

  datatype Status = Status(privacyStatus: Option<string>)

  datatype ApiItem = ApiItem(
    id: Option<string>,
    snippet: Option<Snippet>,
    contentDetails: Option<ContentDetails>,
    status: Option<Status>)

  datatype ApiResponse = ApiResponse(nextPageToken: Option<string>, items: Option<seq<ApiItem>>)

  /** `res.items.into_iter().flatten()`: the listed items, none when the list is absent. */
  function ItemsOf(res: ApiResponse): seq<ApiItem> {
    if res.items.Some? then res.items.value else []
  }

  /** `pi.status?.privacy_status?.as_str() != "public"` does not return early. */
  predicate IsPublic(pi: ApiItem) {
    pi.status.Some? && pi.status.value.privacyStatus == Some("public")
  }

  /**
   * The fields the projection into a playlist item unwraps with `?`: the snippet and its
   * publish date, title, description, channel title, channel id and position, and the content
   * details with their video id and video publish date.
   */
  predicate HasItemFields(pi: ApiItem) {
    pi.snippet.Some? && pi.contentDetails.Some? &&
    var s := pi.snippet.value;
    var c := pi.contentDetails.value;
    s.publishedAt.Some? && s.title.Some? && s.description.Some? && s.channelTitle.Some? &&
    s.channelId.Some? && s.position.Some? && c.videoId.Some? && c.videoPublishedAt.Some?
  }

  /** `x as i32` for a `u32`: the bit pattern read as two's complement. */
  function U32AsI32(x: u32): (y: i32)
    ensures (y as int) % 0x1_0000_0000 == (x as int)
    ensures x < 0x8000_0000 ==> y as int == x as int
  {
    if x < 0x8000_0000 then x as int as i32 else (x as int - 0x1_0000_0000) as i32
  }
}
