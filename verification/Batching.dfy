/**
 `chunkArray` of `tooling/utils/src/batching.ts`: the chunks of a list, where
 each of them begins, and that they are the list again when put together.  The
 embedders send their texts in such chunks and count on where each of them
 begins.
 */
module Batching {
  import opened Optional
  import opened Lists

  datatype Error = SizeNotPositive

  function Chunks<T>(items: seq<T>, size: nat): (chunks: seq<seq<T>>)
    requires size > 0
    ensures forall k :: 0 <= k < |chunks| ==> 0 < |chunks[k]| <= size
    decreases |items|
  {
    if items == [] then []
    else if |items| <= size then [items]
    else [items[..size]] + Chunks(items[size..], size)
  }

  lemma ChunksFrom<T>(items: seq<T>, size: nat, i: nat)
    requires size > 0 && i < |items|
    ensures var rest := if i + size < |items| then Chunks(items[i + size..], size) else [];
            Chunks(items[i..], size) == [Slice(items, i, i + size)] + rest
  {
    var rest := items[i..];
    if |rest| > size {
      assert rest[..size] == items[i..i + size] && rest[size..] == items[i + size..];
    } else {
      assert rest == items[i..|items|];
    }
  }

  method ChunkArray<T>(items: seq<T>, size: int) returns (r: Result<seq<seq<T>>, Error>)
    ensures r == if size <= 0 then Err(SizeNotPositive) else Ok(Chunks(items, size))
  {
    hide Chunks;
    if size <= 0 {
      return Err(SizeNotPositive);
    }
    var chunks: seq<seq<T>> := [];
    var i := 0;
    ghost var rest := Chunks(items, size);
    assert items[0..] == items;
    NoChunks<T>(size);
    while i < |items|
      invariant 0 <= i
      invariant rest == if i < |items| then Chunks(items[i..], size) else []
      invariant Chunks(items, size) == chunks + rest
    {
      ChunksFrom(items, size, i);
      var chunk := Slice(items, i, i + size);
      chunks, rest := chunks + [chunk], rest[1..];
      i := i + size;
    }
    assert chunks + [] == chunks;
    return Ok(chunks);
  }

  lemma NoChunks<T>(size: nat)
    requires size > 0
    ensures Chunks<T>([], size) == []
  {
  }

  /** Put together again, the chunks are the list. */
  lemma {:induction false} ChunksFlatten<T>(items: seq<T>, size: nat)
    requires size > 0
    ensures Flatten(Chunks(items, size)) == items
  {
    if 0 < |items| {
      if |items| > size {
        ChunksFlatten(items[size..], size);
      }
      assert Flatten([items]) == items;
    }
  }

  function Times(k: nat, size: nat): nat {
    if k == 0 then 0 else Times(k - 1, size) + size
  }

  lemma {:induction false} TimesIsProduct(k: nat, size: nat)
    ensures Times(k, size) == k * size
  {
    if k > 0 { TimesIsProduct(k - 1, size); }
  }

  lemma {:induction false} ChunkAtTimes<T>(items: seq<T>, size: nat, k: nat)
    requires size > 0 && k < |Chunks(items, size)|
    ensures Times(k, size) < |items|
    ensures Chunks(items, size)[k] == Slice(items, Times(k, size), Times(k, size) + size)
    ensures k + 1 < |Chunks(items, size)| ==> |Chunks(items, size)[k]| == size
  {
    hide Slice;
    if k > 0 {
      ChunkAtTimes(items[size..], size, k - 1);
      SliceOfRest(items, size, Times(k - 1, size), size);
    } else {
      FirstSlice(items, size);
    }
  }

  lemma FirstSlice<T>(items: seq<T>, size: nat)
    ensures Slice(items, 0, size) == if |items| <= size then items else items[..size]
  {
  }

  lemma SliceOfRest<T>(items: seq<T>, a: nat, start: nat, n: nat)
    requires a <= |items|
    ensures Slice(items[a..], start, start + n) == Slice(items, start + a, start + a + n)
  {
  }

  /** Chunk `k` starts at `k * size`, and only the last one can be shorter than `size`. */
  lemma ChunkAt<T>(items: seq<T>, size: nat, k: nat)
    requires size > 0 && k < |Chunks(items, size)|
    ensures 0 <= k * size < |items|
    ensures Chunks(items, size)[k] == Slice(items, k * size, k * size + size)
    ensures k + 1 < |Chunks(items, size)| ==> |Chunks(items, size)[k]| == size
  {
    hide Chunks, Slice, Times;
    ChunkAtTimes(items, size, k);
    TimesIsProduct(k, size);
  }

  lemma {:induction false} FlattenConcat<T>(a: seq<seq<T>>, b: seq<seq<T>>)
    ensures Flatten(a + b) == Flatten(a) + Flatten(b)
  {
    if a == [] {
      assert a + b == b;
    } else {
      FlattenConcat(a[1..], b);
      assert (a + b)[1..] == a[1..] + b && (a + b)[0] == a[0];
    }
  }

  // ------------------------------------------------------- positions in chunks

  /** How many items come before chunk `j`. */
  function Before<T>(chunks: seq<seq<T>>, j: nat): (n: nat)
    requires j <= |chunks|
  {
    if j == 0 then 0 else Before(chunks, j - 1) + |chunks[j - 1]|
  }

  lemma {:induction false} BeforeRest<T>(chunks: seq<seq<T>>, j: nat)
    requires 0 < j <= |chunks|
    ensures Before(chunks, j) == |chunks[0]| + Before(chunks[1..], j - 1)
  {
    if j > 1 { BeforeRest(chunks, j - 1); }
  }

  /** Item `i` of chunk `j` in the whole list. */
  lemma {:induction false} FlattenAt<T>(chunks: seq<seq<T>>, j: nat, i: nat)
    requires j < |chunks| && i < |chunks[j]|
    ensures Before(chunks, j) + i < |Flatten(chunks)|
    ensures Flatten(chunks)[Before(chunks, j) + i] == chunks[j][i]
  {
    if j > 0 {
      FlattenAt(chunks[1..], j - 1, i);
      BeforeRest(chunks, j);
    }
  }

  lemma {:induction false} BeforeAll<T>(chunks: seq<seq<T>>)
    ensures Before(chunks, |chunks|) == |Flatten(chunks)|
  {
    if chunks != [] {
      BeforeAll(chunks[1..]);
      BeforeRest(chunks, |chunks|);
    }
  }

  /** The chunk that a position of the list falls into. */
  lemma {:induction false} Locate<T>(chunks: seq<seq<T>>, to: nat, n: nat) returns (j: nat, i: nat)
    requires to <= |chunks| && n < Before(chunks, to)
    ensures j < to && i < |chunks[j]| && n == Before(chunks, j) + i
  {
    if n < Before(chunks, to - 1) {
      j, i := Locate(chunks, to - 1, n);
    } else {
      j, i := to - 1, n - Before(chunks, to - 1);
    }
  }

  lemma {:induction false} BeforeGrows<T>(chunks: seq<seq<T>>, j: nat, k: nat)
    requires j < k <= |chunks|
    ensures Before(chunks, j) + |chunks[j]| <= Before(chunks, k)
  {
    if j < k - 1 { BeforeGrows(chunks, j, k - 1); }
  }

  /** When all chunks but the last are full, chunk `j` comes after `j` times the size. */
  lemma {:induction false} BeforeIsTimes<T>(items: seq<T>, size: nat, j: nat)
    requires size > 0 && j < |Chunks(items, size)|
    ensures Before(Chunks(items, size), j) == Times(j, size)
  {
    hide Chunks, Slice;
    if j > 0 {
      BeforeIsTimes(items, size, j - 1);
      ChunkAtTimes(items, size, j - 1);
    }
  }
}
