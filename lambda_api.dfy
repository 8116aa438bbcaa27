/**
 * The lambda server: the same pagination and projection as the core server, with the
 * playlist-item id and the note required, behind a handler that takes the playlist id
 * from the query string.
 */
module LambdaApi {
  import opened Wrappers
  import opened Seqs
  import opened JsObject
  import opened YouTubeApi
  import opened Paging
  import YouTubeClient

  /** This server's `PlaylistItem`: it keeps the playlist-item id and the `u32` position as is. */
  datatype LambdaItem = LambdaItem(
    id: string,
    addedAt: DateTime,
    title: string,
    description: string,
    channelTitle: string,
    channelId: string,
    position: u32,
    videoId: string,
    note: string,
    publishedAt: DateTime)

  /** The closure of this `map_res`: public items with every required field, the id and the note among them. */
  function Project(pi: ApiItem): (r: Option<LambdaItem>)
    ensures r.Some? <==> IsPublic(pi) && HasItemFields(pi) && pi.id.Some? && pi.contentDetails.value.note.Some?
    ensures r.Some? ==>
      var s := pi.snippet.value;
      var c := pi.contentDetails.value;
      r.value.id == pi.id.value && r.value.videoId == c.videoId.value && r.value.title == s.title.value &&
      r.value.description == s.description.value && r.value.channelTitle == s.channelTitle.value &&
      r.value.channelId == s.channelId.value && r.value.position == s.position.value &&
      r.value.addedAt == s.publishedAt.value && r.value.publishedAt == c.videoPublishedAt.value &&
      r.value.note == c.note.value
  {
    if !IsPublic(pi) || pi.snippet.None? || pi.contentDetails.None? then None
    else
      var s := pi.snippet.value;
      var c := pi.contentDetails.value;
      if pi.id.None? || s.publishedAt.None? || s.title.None? || s.description.None? || s.channelTitle.None? ||
         s.channelId.None? || s.position.None? || c.videoId.None? || c.note.None? || c.videoPublishedAt.None?
      then None
      else
        Some(LambdaItem(
          id := pi.id.value,
          addedAt := s.publishedAt.value,
          title := s.title.value,
          description := s.description.value,
          channelTitle := s.channelTitle.value,
          channelId := s.channelId.value,
          position := s.position.value,
          videoId := c.videoId.value,
          note := c.note.value,
          publishedAt := c.videoPublishedAt.value))
  }

  /**
   * This server keeps an API item exactly when the core server does and the item also has
   * its id and its note; where a missing note gives the core server an empty note, it drops the item here.
   */
  lemma ProjectAgainstCore(pi: ApiItem)
    ensures Project(pi).Some? <==> YouTubeClient.Project(pi).Some? && pi.id.Some? && pi.contentDetails.value.note.Some?
    ensures Project(pi).Some? ==> Project(pi).value.videoId == YouTubeClient.Project(pi).value.videoId
    ensures YouTubeClient.Project(pi).Some? && pi.contentDetails.value.note.None? ==>
      Project(pi).None? && YouTubeClient.Project(pi).value.note == []
  {
  }

  /** `map_res`. */
  function MapRes(res: ApiResponse): seq<LambdaItem> {
    FilterMap(ItemsOf(res), Project)
  }

  /** The input position each item of `map_res` comes from, in output order. */
  function SourcePositions(res: ApiResponse): seq<nat> {
    Origins(ItemsOf(res), Project, 0)
  }

  /**
   * A page yields its items in input order, none without an item list: output `j` is the
   * projection of the API item at position `SourcePositions(res)[j]`, these positions strictly
   * increase, and they are exactly the API items that project, so each such item gives exactly
   * one output and every other item gives none.
   */
  lemma MapResSpec(res: ApiResponse, x: LambdaItem)
    ensures |MapRes(res)| == |SourcePositions(res)| <= |ItemsOf(res)|
    ensures res.items.None? ==> MapRes(res) == []
    ensures forall j :: 0 <= j < |MapRes(res)| ==>
      SourcePositions(res)[j] < |ItemsOf(res)| && Project(ItemsOf(res)[SourcePositions(res)[j]]) == Some(MapRes(res)[j])
    ensures forall j, k :: 0 <= j < k < |SourcePositions(res)| ==> SourcePositions(res)[j] < SourcePositions(res)[k]
    ensures forall i :: 0 <= i < |ItemsOf(res)| ==> (i in SourcePositions(res) <==> Project(ItemsOf(res)[i]).Some?)
    ensures x in MapRes(res) <==> exists i :: 0 <= i < |ItemsOf(res)| && Project(ItemsOf(res)[i]) == Some(x)
  {
    var items := ItemsOf(res);
    FilterMapLength(items, Project);
    FilterMapMember(items, Project, x);
    FilterMapOrigins(items, Project, 0);
    OriginsIncrease(items, Project, 0);
    forall i | 0 <= i < |items| ensures i in SourcePositions(res) <==> Project(items[i]).Some? {
      OriginsMembers(items, Project, 0, i);
    }
  }

  /** The API items of a page are projected one by one, in order: the items of `a + b` give those of `a`, then those of `b`. */
  lemma MapResInOrder(a: seq<ApiItem>, b: seq<ApiItem>, token: Option<string>)
    ensures MapRes(ApiResponse(token, Some(a + b))) == MapRes(ApiResponse(token, Some(a))) + MapRes(ApiResponse(token, Some(b)))
  {
    FilterMapAppend(a, b, Project);
  }

  /** `create_items` (with `fetch` as `get_playlist_items(playlist_id, token)`): the pages that name a next page. */
  method CreateItems<E>(fetch: Option<string> -> Result<ApiResponse, E>, ghost fuel: nat)
    returns (r: Result<seq<ApiResponse>, E>)
    requires ChainEnds(fetch, YouTubeClient.NextToken, None, fuel)
    ensures r == Pages(fetch, YouTubeClient.NextToken, None, fuel)
    ensures r.Ok? ==> forall i :: 0 <= i < |r.value| ==> r.value[i].nextPageToken.Some?
  {
    r := CollectPages(fetch, YouTubeClient.NextToken, fuel);
    PagesHaveNext(fetch, YouTubeClient.NextToken, None, fuel);
  }

  /** The handler's failures: the missing query parameter, or the API call's error. */
  datatype HandlerError<E> = MissingPlaylistId | Api(error: E)

  /** The query string's parameters, each name with its values. */
  type QueryParams = Rec<string, seq<string>>

  /** `query_string_parameters_ref().and_then(|params| params.first("playlist-id"))`. */
  function PlaylistIdParam(params: Option<QueryParams>): (id: Option<string>)
    ensures id.Some? <==> params.Some? && Get(params.value, "playlist-id").Some? && Get(params.value, "playlist-id").value != []
    ensures id.Some? ==> id.value == Get(params.value, "playlist-id").value[0]
  {
    if params.None? then None
    else
      match Get(params.value, "playlist-id")
      case None => None
      case Some(values) => if values == [] then None else Some(values[0])
  }

  /** The response of a successful call: its body text, and the items the handler prints. */
  datatype Reply = Reply(body: string, items: seq<LambdaItem>)

  /**
   * `handler`: without a `playlist-id` parameter it fails with `MissingPlaylistId` before any
   * fetch; otherwise it reads the playlist's pages (`fetch(id)`), maps their items, and replies
   * `ID: <id>!`.
   */
  method Handler<E>(params: Option<QueryParams>, fetch: string -> Option<string> -> Result<ApiResponse, E>, ghost fuel: nat)
    returns (r: Result<Reply, HandlerError<E>>)
    requires PlaylistIdParam(params).Some? ==> ChainEnds(fetch(PlaylistIdParam(params).value), YouTubeClient.NextToken, None, fuel)
    ensures r == Failure(MissingPlaylistId) <==> PlaylistIdParam(params).None?
    ensures PlaylistIdParam(params).Some? ==>
      var id := PlaylistIdParam(params).value;
      var pages := Pages(fetch(id), YouTubeClient.NextToken, None, fuel);
      r == if pages.Failure? then Failure(Api(pages.error)) else Ok(Reply("ID: " + id + "!", FlatMap(pages.value, MapRes)))
  {
    var id := PlaylistIdParam(params);
    if id.None? {
      return Failure(MissingPlaylistId);
    }
    var pages := CreateItems(fetch(id.value), fuel);
    if pages.Failure? {
      return Failure(Api(pages.error));
    }
    var items := FlatMap(pages.value, MapRes);
    r := Ok(Reply("ID: " + id.value + "!", items));
  }
}
