/**
 Following next cursors through a list, for any way of naming an offset by a
 cursor: the slicing of `paginateArray` in
 `packages/tekmemo-mcp-server/src/utils/pagination.ts`, whatever its cursors
 look like.
 */
module PageWalk {
  import opened Lists
  import opened Optional

  datatype Page<T, C> = Page(items: seq<T>, nextCursor: Option<C>)

  function PageAt<T, C>(items: seq<T>, offset: nat, limit: int, name: nat -> C): Page<T, C> {
    var pageItems := Slice(items, offset, offset + limit);
    var nextOffset := offset + |pageItems|;
    Page(pageItems, if nextOffset < |items| then Some(name(nextOffset)) else None)
  }

  type Fetch<T, !C, E> = Option<C> -> Result<Page<T, C>, E>

  /** Without a cursor the first page is returned, and with the name of an offset the page there. */
  ghost predicate Serves<T, C, E>(fetch: Fetch<T, C, E>, items: seq<T>, limit: int, name: nat -> C) {
    && fetch(None) == Ok(PageAt(items, 0, limit, name))
    && forall offset {:trigger fetch(Some(name(offset)))} :: 0 <= offset < |items| ==> fetch(Some(name(offset))) == Ok(PageAt(items, offset, limit, name))
  }

  /** The page reached by following `k` next cursors, if there are that many. */
  function Follow<T, C, E>(fetch: Fetch<T, C, E>, k: nat): Option<Result<Page<T, C>, E>> {
    if k == 0 then Some(fetch(None))
    else
      match Follow(fetch, k - 1)
      case Some(Ok(page)) => if page.nextCursor.None? then None else Some(fetch(page.nextCursor))
      case _ => None
  }

  // ---------------------------------------------------------------- counting

  /** `count` is max(1, ceil(n / limit)). */
  predicate IsPageCount(count: nat, n: nat, limit: nat) {
    if n == 0 then count == 1 else count >= 1 && (count - 1) * limit < n <= count * limit
  }

  lemma {:induction false} ChopCount<T>(items: seq<T>, limit: nat)
    requires limit > 0
    ensures IsPageCount(|Chop(items, limit)|, |items|, limit)
  {
    if |items| > limit {
      ChopCount(items[limit..], limit);
      var c := |Chop(items[limit..], limit)|;
      assert c * limit == (c - 1) * limit + limit;
      assert (c + 1) * limit == c * limit + limit;
    }
  }

  // ---------------------------------------------------------------- the walk

  ghost predicate Visits<T, C, E>(fetch: Fetch<T, C, E>, items: seq<T>, limit: int, name: nat -> C, k: nat, offset: nat) {
    Follow(fetch, k) == Some(Ok(PageAt(items, offset, limit, name)))
  }

  /** The `k`-th page of the walk exists and holds these items. */
  ghost predicate Shows<T, C, E>(fetch: Fetch<T, C, E>, k: nat, items: seq<T>) {
    Follow(fetch, k).Some? && Follow(fetch, k).value.Ok? && Follow(fetch, k).value.value.items == items
  }

  lemma NextVisit<T, C, E>(fetch: Fetch<T, C, E>, items: seq<T>, limit: int, name: nat -> C, k: nat, offset: nat)
    requires Serves(fetch, items, limit, name) && Visits(fetch, items, limit, name, k, offset)
    ensures Shows(fetch, k, Slice(items, offset, offset + limit))
    ensures var next := offset + |Slice(items, offset, offset + limit)|;
            if next < |items| then Visits(fetch, items, limit, name, k + 1, next) else Follow(fetch, k + 1) == None
  {
  }

  /** From a visited offset on, the walk shows the rest of the list page by page. */
  lemma {:induction false} WalkFrom<T, C, E>(fetch: Fetch<T, C, E>, items: seq<T>, limit: nat, name: nat -> C, k: nat, offset: nat)
    requires Serves(fetch, items, limit, name) && limit > 0
    requires Visits(fetch, items, limit, name, k, offset) && offset <= |items|
    ensures var pages := Chop(items[offset..], limit);
            && (forall j :: 0 <= j < |pages| ==> Shows(fetch, k + j, pages[j]))
            && Follow(fetch, k + |pages|) == None
    decreases |items| - offset
  {
    hide Serves, Visits, Shows, Follow, Slice;
    var rest := items[offset..];
    NextVisit(fetch, items, limit, name, k, offset);
    SliceFrom(items, offset, limit);
    if |rest| > limit {
      var more := Chop(rest[limit..], limit);
      assert items[offset + limit..] == rest[limit..];
      WalkFrom(fetch, items, limit, name, k + 1, offset + limit);
      ShowsCons(fetch, k, rest[..limit], more);
    }
  }

  lemma ShowsCons<T, C, E>(fetch: Fetch<T, C, E>, k: nat, page: seq<T>, more: seq<seq<T>>)
    requires Shows(fetch, k, page) && forall j :: 0 <= j < |more| ==> Shows(fetch, k + 1 + j, more[j])
    ensures forall j :: 0 <= j < |[page] + more| ==> Shows(fetch, k + j, ([page] + more)[j])
  {
    forall j | 0 <= j < |[page] + more|
      ensures Shows(fetch, k + j, ([page] + more)[j])
    {
      if j > 0 { assert Shows(fetch, k + 1 + (j - 1), more[j - 1]); }
    }
  }

  /**
   With a positive limit, following the cursors visits exactly max(1, ceil(n / limit))
   pages, whose items together are the whole list, in order and each once.
   */
  lemma WalkVisitsEverything<T, C, E>(fetch: Fetch<T, C, E>, items: seq<T>, limit: nat, name: nat -> C) returns (pages: seq<seq<T>>)
    requires Serves(fetch, items, limit, name) && limit > 0
    ensures IsPageCount(|pages|, |items|, limit)
    ensures forall k :: 0 <= k < |pages| ==> Shows(fetch, k, pages[k])
    ensures Follow(fetch, |pages|) == None
    ensures Flatten(pages) == items
  {
    pages := Chop(items, limit);
    ChopCount(items, limit);
    ChopFlattens(items, limit);
    assert Visits(fetch, items, limit, name, 0, 0);
    WalkFrom(fetch, items, limit, name, 0, 0);
    assert items[0..] == items;
    forall k | 0 <= k < |pages|
      ensures Shows(fetch, k, pages[k])
    {
      assert Shows(fetch, 0 + k, pages[k]);
    }
  }

  /** With a limit that is not positive a list that is not empty is walked for ever. */
  lemma {:induction false} NeverEnds<T, C, E>(fetch: Fetch<T, C, E>, items: seq<T>, limit: int, name: nat -> C, k: nat) returns (offset: nat)
    requires Serves(fetch, items, limit, name) && limit <= 0 && items != []
    ensures offset < |items| && Visits(fetch, items, limit, name, k, offset)
  {
    offset := 0;
    if k > 0 {
      var before := NeverEnds(fetch, items, limit, name, k - 1);
      SliceStays(items, before, limit);
      NextVisit(fetch, items, limit, name, k - 1, before);
      offset := before + |Slice(items, before, before + limit)|;
    }
  }

  /** The walk ends exactly when the limit is positive or there is nothing to page. */
  lemma WalkEnds<T, C, E>(fetch: Fetch<T, C, E>, items: seq<T>, limit: int, name: nat -> C)
    requires Serves(fetch, items, limit, name)
    ensures (exists k: nat :: Follow(fetch, k) == None) <==> (limit > 0 || items == [])
  {
    if limit > 0 {
      var pages := WalkVisitsEverything(fetch, items, limit, name);
    } else if items == [] {
      assert Visits(fetch, items, limit, name, 0, 0);
      NextVisit(fetch, items, limit, name, 0, 0);
    } else {
      forall k: nat
        ensures Follow(fetch, k) != None
      {
        var offset := NeverEnds(fetch, items, limit, name, k);
      }
    }
  }
}
