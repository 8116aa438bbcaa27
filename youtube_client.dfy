/**
 * The core server's YouTube client: reading every page of a playlist, projecting the
 * raw API items into stored playlist items, and collecting them into a set keyed by
 * video id.
 */
module YouTubeClient {
  import opened Wrappers
  import opened Seqs
  import opened YouTubeApi
  import opened StoreModel
  import opened Paging

  /**
   * The closure `map_res` hands to `filter_map`: only public items, and only those with every
   * required field; a missing note becomes the empty string, and the `u32` position is cast to `i32`.
   */
  function Project(pi: ApiItem): (r: Option<StoredItem>)
    ensures r.Some? <==> IsPublic(pi) && HasItemFields(pi)
    ensures r.Some? ==>
      var s := pi.snippet.value;
      var c := pi.contentDetails.value;
      r.value.videoId == c.videoId.value && r.value.title == s.title.value &&
      r.value.description == s.description.value && r.value.channelTitle == s.channelTitle.value &&
      r.value.channelId == s.channelId.value && r.value.position == U32AsI32(s.position.value) &&
      r.value.addedAt == s.publishedAt.value && r.value.publishedAt == c.videoPublishedAt.value &&
      r.value.note == (if c.note.Some? then c.note.value else [])
  {
    if !IsPublic(pi) || pi.snippet.None? || pi.contentDetails.None? then None
    else
      var s := pi.snippet.value;
      var c := pi.contentDetails.value;
      if s.publishedAt.None? || s.title.None? || s.description.None? || s.channelTitle.None? ||
         s.channelId.None? || s.position.None? || c.videoId.None? || c.videoPublishedAt.None?
      then None
      else
        Some(StoredItem(
          videoId := c.videoId.value,
          title := s.title.value,
          description := s.description.value,
          note := if c.note.Some? then c.note.value else [],
          position := U32AsI32(s.position.value),
          channelTitle := s.channelTitle.value,
          channelId := s.channelId.value,
          addedAt := s.publishedAt.value,
          publishedAt := c.videoPublishedAt.value))
  }

  /** `map_res`: the projections of a page's items, in order. */
  function MapRes(res: ApiResponse): seq<StoredItem> {
    FilterMap(ItemsOf(res), Project)
  }

  /** The input position each item of `map_res` comes from, in output order. */
  function SourcePositions(res: ApiResponse): seq<nat> {
    Origins(ItemsOf(res), Project, 0)
  }

  /**
   * A page yields its items in input order, none without an item list: output `j` is the
   * projection of the API item at position `SourcePositions(res)[j]`, these positions strictly
   * increase, and they are exactly the API items that project, so each such item gives exactly
   * one output and every other item gives none.
   */
  lemma MapResSpec(res: ApiResponse, x: StoredItem)
    ensures |MapRes(res)| == |SourcePositions(res)| <= |ItemsOf(res)|
    ensures res.items.None? ==> MapRes(res) == []
    ensures forall j :: 0 <= j < |MapRes(res)| ==>
      SourcePositions(res)[j] < |ItemsOf(res)| && Project(ItemsOf(res)[SourcePositions(res)[j]]) == Some(MapRes(res)[j])
    ensures forall j, k :: 0 <= j < k < |SourcePositions(res)| ==> SourcePositions(res)[j] < SourcePositions(res)[k]
    ensures forall i :: 0 <= i < |ItemsOf(res)| ==> (i in SourcePositions(res) <==> Project(ItemsOf(res)[i]).Some?)
    ensures x in MapRes(res) <==> exists i :: 0 <= i < |ItemsOf(res)| && Project(ItemsOf(res)[i]) == Some(x)
  {
    var items := ItemsOf(res);
    FilterMapLength(items, Project);
    FilterMapMember(items, Project, x);
    FilterMapOrigins(items, Project, 0);
    OriginsIncrease(items, Project, 0);
    forall i | 0 <= i < |items| ensures i in SourcePositions(res) <==> Project(items[i]).Some? {
      OriginsMembers(items, Project, 0, i);
    }
  }

  /** The API items of a page are projected one by one, in order: the items of `a + b` give those of `a`, then those of `b`. */
  lemma MapResInOrder(a: seq<ApiItem>, b: seq<ApiItem>, token: Option<string>)
    ensures MapRes(ApiResponse(token, Some(a + b))) == MapRes(ApiResponse(token, Some(a))) + MapRes(ApiResponse(token, Some(b)))
  {
    FilterMapAppend(a, b, Project);
  }

  function NextToken(res: ApiResponse): Option<string> {
    res.nextPageToken
  }

  /**
   * `get_all` for one playlist (`fetch` is `get(id, token)`): the pages from the first on
   * that name a next page, so the final page never is among them.
   */
  method GetAll<E>(fetch: Option<string> -> Result<ApiResponse, E>, ghost fuel: nat)
    returns (r: Result<seq<ApiResponse>, E>)
    requires ChainEnds(fetch, NextToken, None, fuel)
    ensures r == Pages(fetch, NextToken, None, fuel)
    ensures r.Ok? ==> forall i :: 0 <= i < |r.value| ==> r.value[i].nextPageToken.Some?
  {
    r := CollectPages(fetch, NextToken, fuel);
    PagesHaveNext(fetch, NextToken, None, fuel);
  }

  function VideoIds(s: seq<StoredItem>): (ids: seq<string>)
    ensures |ids| == |s|
    ensures forall i :: 0 <= i < |s| ==> ids[i] == s[i].videoId
  {
    seq(|s|, i requires 0 <= i < |s| => s[i].videoId)
  }

  /** No two items share a video id: what a `HashSet<PlaylistItem>` holds, items being equal by video id. */
  predicate DistinctIds(s: seq<StoredItem>) {
    forall i, j :: 0 <= i < j < |s| ==> s[i].videoId != s[j].videoId
  }

  /** No item before position `i` has the video id of `s[i]`. */
  predicate FirstOfItsId(s: seq<StoredItem>, i: nat)
    requires i < |s|
  {
    s[i].videoId !in VideoIds(s[..i])
  }

  /**
   * `collect()` into a `HashSet`: items are inserted in order, and `insert` leaves the set
   * unchanged when an equal item (one with the same video id) is already there.
   */
  function Dedupe(s: seq<StoredItem>): seq<StoredItem>
    decreases |s|
  {
    if s == [] then []
    else
      var d := Dedupe(s[..|s| - 1]);
      var e := s[|s| - 1];
      if e.videoId in VideoIds(d) then d else d + [e]
  }

  /** The collected set has no two items with one video id, and has an item for every video id of the input. */
  lemma {:induction false} DedupeIds(s: seq<StoredItem>)
    ensures DistinctIds(Dedupe(s))
    ensures forall id :: id in VideoIds(Dedupe(s)) <==> id in VideoIds(s)
    decreases |s|
  {
    if s != [] {
      var t := s[..|s| - 1];
      var e := s[|s| - 1];
      var d := Dedupe(t);
      DedupeIds(t);
      assert VideoIds(s) == VideoIds(t) + [e.videoId];
      if e.videoId !in VideoIds(d) {
        var d' := d + [e];
        assert VideoIds(d') == VideoIds(d) + [e.videoId];
        forall i, j | 0 <= i < j < |d'| ensures d'[i].videoId != d'[j].videoId {
          if j == |d'| - 1 {
            assert VideoIds(d)[i] == d[i].videoId;
          }
        }
      }
    }
  }

  /** The collected set holds exactly the input items that come first with their video id. */
  lemma DedupeMembers(s: seq<StoredItem>, x: StoredItem)
    ensures x in Dedupe(s) <==> exists i :: 0 <= i < |s| && s[i] == x && FirstOfItsId(s, i)
  {
    if exists i :: 0 <= i < |s| && s[i] == x && FirstOfItsId(s, i) {
      var i :| 0 <= i < |s| && s[i] == x && FirstOfItsId(s, i);
      DedupeKeepsFirst(s, i);
    }
    if x in Dedupe(s) {
      var i := DedupeOnlyFirst(s, x);
    }
  }

  /** An item that comes first with its video id is collected. */
  lemma {:induction false} DedupeKeepsFirst(s: seq<StoredItem>, i: nat)
    requires i < |s| && FirstOfItsId(s, i)
    ensures s[i] in Dedupe(s)
    decreases |s|
  {
    var t := s[..|s| - 1];
    DedupeIds(t);
    if i + 1 < |s| {
      FirstOfItsIdPrefix(s, i);
      DedupeKeepsFirst(t, i);
    } else {
      assert s[..i] == t;
    }
  }

  /** Every collected item is an input item that comes first with its video id. */
  lemma {:induction false} DedupeOnlyFirst(s: seq<StoredItem>, x: StoredItem) returns (i: nat)
    requires x in Dedupe(s)
    ensures i < |s| && s[i] == x && FirstOfItsId(s, i)
    decreases |s|
  {
    var t := s[..|s| - 1];
    DedupeIds(t);
    if x in Dedupe(t) {
      i := DedupeOnlyFirst(t, x);
      FirstOfItsIdPrefix(s, i);
    } else {
      i := |s| - 1;
      assert s[..i] == t;
    }
  }

  /** Before the last position, an item is first of its id in `s` exactly when it is in `s` without its last item. */
  lemma FirstOfItsIdPrefix(s: seq<StoredItem>, i: nat)
    requires i + 1 < |s|
    ensures s[..|s| - 1][i] == s[i]
    ensures FirstOfItsId(s, i) <==> FirstOfItsId(s[..|s| - 1], i)
  {
    assert s[..|s| - 1][..i] == s[..i];
  }

  /** The items of every kept page, projected and collected by video id. */
  function CollectItems(pages: seq<ApiResponse>): seq<StoredItem> {
    Dedupe(FlatMap(pages, MapRes))
  }

  /**
   * `get_items`: the items of every page but the last, projected and collected by video id;
   * a failed fetch is the result.
   */
  method GetItems<E>(fetch: Option<string> -> Result<ApiResponse, E>, ghost fuel: nat)
    returns (r: Result<seq<StoredItem>, E>)
    requires ChainEnds(fetch, NextToken, None, fuel)
    ensures Pages(fetch, NextToken, None, fuel).Failure? ==> r == Failure(Pages(fetch, NextToken, None, fuel).error)
    ensures Pages(fetch, NextToken, None, fuel).Ok? ==> r == Ok(CollectItems(Pages(fetch, NextToken, None, fuel).value))
    ensures r.Ok? ==> DistinctIds(r.value)
  {
    var pages := GetAll(fetch, fuel);
    if pages.Failure? {
      return Failure(pages.error);
    }
    DedupeIds(FlatMap(pages.value, MapRes));
    r := Ok(CollectItems(pages.value));
  }

  /**
   * What `get_items` leaves out: the items of the whole chain are those of the kept pages
   * followed by those of the final page, so only the final page's items are missed.
   */
  lemma MissedItems<E>(fetch: Option<string> -> Result<ApiResponse, E>, fuel: nat)
    requires ChainEnds(fetch, NextToken, None, fuel)
    ensures var kept := Pages(fetch, NextToken, None, fuel); var all := AllPages(fetch, NextToken, None, fuel);
      kept.Ok? ==>
        all.Ok? && |all.value| == |kept.value| + 1 &&
        FlatMap(all.value, MapRes) == FlatMap(kept.value, MapRes) + MapRes(all.value[|kept.value|])
  {
    var kept := Pages(fetch, NextToken, None, fuel);
    var all := AllPages(fetch, NextToken, None, fuel);
    PagesDropFinal(fetch, NextToken, None, fuel);
    if kept.Ok? {
      var last := all.value[|kept.value|];
      assert all.value == kept.value + [last];
      FlatMapAppend(kept.value, [last], MapRes);
      assert FlatMap([last], MapRes) == MapRes(last) + FlatMap([], MapRes);
    }
  }

  /**
   * A playlist that fits on one page: `get_items` returns no item at all, whatever the page
   * holds, where the whole chain's items are the page's own.
   */
  lemma OnePagePlaylistYieldsNothing<E>(fetch: Option<string> -> Result<ApiResponse, E>, page: ApiResponse, fuel: nat)
    requires fuel > 0 && fetch(None) == Ok(page) && page.nextPageToken.None?
    ensures ChainEnds(fetch, NextToken, None, fuel)
    ensures Pages(fetch, NextToken, None, fuel) == Ok([]) && CollectItems([]) == []
    ensures AllPages(fetch, NextToken, None, fuel) == Ok([page]) && FlatMap([page], MapRes) == MapRes(page)
  {
    OnePageKeepsNothing(fetch, NextToken, page, fuel);
    assert FlatMap([page], MapRes) == MapRes(page) + FlatMap([], MapRes);
  }
}
