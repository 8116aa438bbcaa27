/**
 * The pagination loop both servers use to read a playlist: fetch the first page,
 * then, while the page just fetched names a next page, keep it and fetch the next.
 * The page that names no next page is fetched but not kept; `AllPages` and
 * `CollectAllPages` are the loop that keeps it too.
 */
module Paging {
  import opened Wrappers

  /**
   * From `token` on, the server's chain of pages ends (a page without a next token,
   * or a failed fetch) within `fuel` fetches.
   */
  ghost predicate ChainEnds<P, E>(fetch: Option<string> -> Result<P, E>, next: P -> Option<string>, token: Option<string>, fuel: nat)
    decreases fuel
  {
    fuel > 0 &&
    match fetch(token)
    case Failure(_) => true
    case Ok(page) => next(page).None? || ChainEnds(fetch, next, next(page), fuel - 1)
  }

  /** The pages kept from `token` on: each fetched page that names a next page; the first failure ends it. */
  ghost function Pages<P, E>(fetch: Option<string> -> Result<P, E>, next: P -> Option<string>, token: Option<string>, fuel: nat): Result<seq<P>, E>
    requires ChainEnds(fetch, next, token, fuel)
    decreases fuel
  {
    match fetch(token)
    case Failure(e) => Failure(e)
    case Ok(page) =>
      if next(page).None? then Ok([])
      else Prepend([page], Pages(fetch, next, next(page), fuel - 1))
  }

  function Prepend<P, E>(kept: seq<P>, r: Result<seq<P>, E>): Result<seq<P>, E> {
    if r.Ok? then Ok(kept + r.value) else r
  }

  lemma PrependAssoc<P, E>(kept: seq<P>, page: P, r: Result<seq<P>, E>)
    ensures Prepend(kept, Prepend([page], r)) == Prepend(kept + [page], r)
  {
    if r.Ok? {
      assert kept + ([page] + r.value) == (kept + [page]) + r.value;
    }
  }

  /**
   * `get_all` / `create_items`: the `while let Some(next) = res.next_page_token` loop,
   * with `?` passing the first failed fetch on.
   */
  method CollectPages<P, E>(fetch: Option<string> -> Result<P, E>, next: P -> Option<string>, ghost fuel: nat)
    returns (r: Result<seq<P>, E>)
    requires ChainEnds(fetch, next, None, fuel)
    ensures r == Pages(fetch, next, None, fuel)
  {
    var lists: seq<P> := [];
    var got := fetch(None);
    if got.Failure? {
      return Failure(got.error);
    }
    var res := got.value;
    var token: Option<string> := None;
    ghost var k := fuel;
    assert Prepend(lists, Pages(fetch, next, token, k)) == Pages(fetch, next, token, k) by {
      if Pages(fetch, next, token, k).Ok? {
        assert [] + Pages(fetch, next, token, k).value == Pages(fetch, next, token, k).value;
      }
    }
    while next(res).Some?
      invariant ChainEnds(fetch, next, token, k) && fetch(token) == Ok(res)
      invariant Pages(fetch, next, None, fuel) == Prepend(lists, Pages(fetch, next, token, k))
      decreases k
    {
      PrependAssoc(lists, res, Pages(fetch, next, next(res), k - 1));
      lists := lists + [res];
      token := next(res);
      k := k - 1;
      got := fetch(token);
      if got.Failure? {
        return Failure(got.error);
      }
      res := got.value;
    }
    assert lists + [] == lists;
    r := Ok(lists);
  }

  /** Every kept page names a next page: the last page fetched is never among them. */
  lemma {:induction false} PagesHaveNext<P, E>(fetch: Option<string> -> Result<P, E>, next: P -> Option<string>, token: Option<string>, fuel: nat)
    requires ChainEnds(fetch, next, token, fuel)
    ensures var r := Pages(fetch, next, token, fuel);
      r.Ok? ==> forall i :: 0 <= i < |r.value| ==> next(r.value[i]).Some?
    decreases fuel
  {
    var got := fetch(token);
    if got.Ok? && next(got.value).Some? {
      var rest := Pages(fetch, next, next(got.value), fuel - 1);
      PagesHaveNext(fetch, next, next(got.value), fuel - 1);
      if rest.Ok? {
        var all := [got.value] + rest.value;
        assert Pages(fetch, next, token, fuel) == Ok(all);
        forall i | 0 <= i < |all| ensures next(all[i]).Some? {
          if i > 0 {
            assert all[i] == rest.value[i - 1];
          }
        }
      }
    }
  }

  /**
   * The kept pages are the chain itself: the first is the page fetched without a token,
   * and each later one is the page fetched with the token its predecessor names.
   */
  lemma {:induction false} PagesChain<P, E>(fetch: Option<string> -> Result<P, E>, next: P -> Option<string>, token: Option<string>, fuel: nat)
    requires ChainEnds(fetch, next, token, fuel)
    ensures var r := Pages(fetch, next, token, fuel);
      r.Ok? && r.value != [] ==> (fetch(token) == Ok(r.value[0]) &&
        forall i :: 0 < i < |r.value| ==> fetch(next(r.value[i - 1])) == Ok(r.value[i]))
    decreases fuel
  {
    var got := fetch(token);
    if got.Ok? && next(got.value).Some? {
      var rest := Pages(fetch, next, next(got.value), fuel - 1);
      PagesChain(fetch, next, next(got.value), fuel - 1);
      if rest.Ok? && rest.value != [] {
        var all := [got.value] + rest.value;
        forall i | 0 < i < |all| ensures fetch(next(all[i - 1])) == Ok(all[i]) {
          if i > 1 {
            assert all[i - 1] == rest.value[i - 2] && all[i] == rest.value[i - 1];
          }
        }
      }
    }
  }

  /** The result does not depend on how generous the termination bound is. */
  lemma {:induction false} PagesFuel<P, E>(fetch: Option<string> -> Result<P, E>, next: P -> Option<string>, token: Option<string>, fuel: nat, fuel': nat)
    requires ChainEnds(fetch, next, token, fuel) && ChainEnds(fetch, next, token, fuel')
    ensures Pages(fetch, next, token, fuel) == Pages(fetch, next, token, fuel')
    decreases fuel
  {
    var got := fetch(token);
    if got.Ok? && next(got.value).Some? {
      PagesFuel(fetch, next, next(got.value), fuel - 1, fuel' - 1);
    }
  }

  /** Every page of the chain from `token` on, the final one included; the first failure ends it. */
  ghost function AllPages<P, E>(fetch: Option<string> -> Result<P, E>, next: P -> Option<string>, token: Option<string>, fuel: nat): Result<seq<P>, E>
    requires ChainEnds(fetch, next, token, fuel)
    decreases fuel
  {
    match fetch(token)
    case Failure(e) => Failure(e)
    case Ok(page) =>
      if next(page).None? then Ok([page])
      else Prepend([page], AllPages(fetch, next, next(page), fuel - 1))
  }

  /**
   * The loop that keeps the page ending the chain as well: the same fetches, with the
   * last page fetched pushed after the loop.
   */
  method CollectAllPages<P, E>(fetch: Option<string> -> Result<P, E>, next: P -> Option<string>, ghost fuel: nat)
    returns (r: Result<seq<P>, E>)
    requires ChainEnds(fetch, next, None, fuel)
    ensures r == AllPages(fetch, next, None, fuel)
  {
    var lists: seq<P> := [];
    var got := fetch(None);
    if got.Failure? {
      return Failure(got.error);
    }
    var res := got.value;
    var token: Option<string> := None;
    ghost var k := fuel;
    assert Prepend(lists, AllPages(fetch, next, token, k)) == AllPages(fetch, next, token, k) by {
      if AllPages(fetch, next, token, k).Ok? {
        assert [] + AllPages(fetch, next, token, k).value == AllPages(fetch, next, token, k).value;
      }
    }
    while next(res).Some?
      invariant ChainEnds(fetch, next, token, k) && fetch(token) == Ok(res)
      invariant AllPages(fetch, next, None, fuel) == Prepend(lists, AllPages(fetch, next, token, k))
      decreases k
    {
      PrependAssoc(lists, res, AllPages(fetch, next, next(res), k - 1));
      lists := lists + [res];
      token := next(res);
      k := k - 1;
      got := fetch(token);
      if got.Failure? {
        return Failure(got.error);
      }
      res := got.value;
    }
    r := Ok(lists + [res]);
  }

  /**
   * What the `while let` loop drops: it fails exactly when the whole chain does, with the
   * same error, and otherwise keeps the whole chain but its final page, the one naming no next page.
   */
  lemma {:induction false} PagesDropFinal<P, E>(fetch: Option<string> -> Result<P, E>, next: P -> Option<string>, token: Option<string>, fuel: nat)
    requires ChainEnds(fetch, next, token, fuel)
    ensures Pages(fetch, next, token, fuel).Failure? <==> AllPages(fetch, next, token, fuel).Failure?
    ensures Pages(fetch, next, token, fuel).Failure? ==> AllPages(fetch, next, token, fuel) == Pages(fetch, next, token, fuel)
    ensures var kept := Pages(fetch, next, token, fuel); var all := AllPages(fetch, next, token, fuel);
      kept.Ok? ==>
        all.Ok? && |all.value| == |kept.value| + 1 && all.value[..|kept.value|] == kept.value &&
        next(all.value[|kept.value|]).None?
    decreases fuel
  {
    var got := fetch(token);
    if got.Ok? && next(got.value).Some? {
      var kept := Pages(fetch, next, next(got.value), fuel - 1);
      var all := AllPages(fetch, next, next(got.value), fuel - 1);
      PagesDropFinal(fetch, next, next(got.value), fuel - 1);
      if kept.Ok? {
        ConsPrefix(got.value, all.value, kept.value);
      }
    }
  }

  lemma ConsPrefix<P>(x: P, all: seq<P>, kept: seq<P>)
    requires |all| == |kept| + 1 && all[..|kept|] == kept
    ensures ([x] + all)[..|[x] + kept|] == [x] + kept && ([x] + all)[|[x] + kept|] == all[|kept|]
  {
  }

  /** A playlist of one page: the `while let` loop keeps no page at all, where the whole chain is that page. */
  lemma OnePageKeepsNothing<P, E>(fetch: Option<string> -> Result<P, E>, next: P -> Option<string>, page: P, fuel: nat)
    requires fuel > 0 && fetch(None) == Ok(page) && next(page).None?
    ensures ChainEnds(fetch, next, None, fuel)
    ensures Pages(fetch, next, None, fuel) == Ok([])
    ensures AllPages(fetch, next, None, fuel) == Ok([page])
  {
  }
}
