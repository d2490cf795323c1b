/** Lists: slices of them, pages cut from them, and lists of lists put together. */
module Lists {
  /** `Array.prototype.slice` of a start that is not negative; a negative end counts from the back. */
  function Slice<T>(items: seq<T>, start: nat, end: int): seq<T> {
    var n := |items|;
    var to := if end < 0 then (if n + end < 0 then 0 else n + end) else if end > n then n else end;
    if start < to then items[start..to] else []
  }

  /** A list cut into pages of `limit` items, the last of which may be shorter; at least one page. */
  function Chop<T>(items: seq<T>, limit: nat): (pages: seq<seq<T>>)
    requires limit > 0
    ensures |pages| > 0
    ensures forall k :: 0 <= k < |pages| ==> |pages[k]| <= limit && (k < |pages| - 1 ==> |pages[k]| == limit)
  {
    if |items| <= limit then [items] else [items[..limit]] + Chop(items[limit..], limit)
  }

  function Flatten<T>(pages: seq<seq<T>>): seq<T> {
    if pages == [] then [] else pages[0] + Flatten(pages[1..])
  }

  lemma {:induction false} ChopFlattens<T>(items: seq<T>, limit: nat)
    requires limit > 0
    ensures Flatten(Chop(items, limit)) == items
  {
    if |items| > limit {
      ChopFlattens(items[limit..], limit);
      assert items[..limit] + items[limit..] == items;
    }
  }

  lemma SliceFrom<T>(items: seq<T>, offset: nat, limit: nat)
    requires offset <= |items|
    ensures var rest := items[offset..]; Slice(items, offset, offset + limit) == if |rest| > limit then rest[..limit] else rest
  {
  }

  lemma SliceStays<T>(items: seq<T>, offset: nat, limit: int)
    requires offset < |items| && limit <= 0
    ensures offset + |Slice(items, offset, offset + limit)| < |items|
  {
  }
}
