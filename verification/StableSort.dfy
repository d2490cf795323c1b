/**
 The sort of the language on keys that are numbers: stable, as the standard
 demands since 2019.  It is an insertion sort here, as any stable sort computes
 the same; the embedders sort their records with it by index, which is often
 what they are sorted by already.
 */
module StableSort {

  ghost predicate Sorted<T>(xs: seq<T>, key: T -> real) {
    forall i, j :: 0 <= i < j < |xs| ==> key(xs[i]) <= key(xs[j])
  }

  /** After every element whose key is not greater. */
  function Insert<T>(xs: seq<T>, x: T, key: T -> real): seq<T> {
    if xs == [] || key(xs[|xs| - 1]) <= key(x) then xs + [x]
    else Insert(xs[..|xs| - 1], x, key) + [xs[|xs| - 1]]
  }

  function Sort<T>(xs: seq<T>, key: T -> real): seq<T> {
    if xs == [] then [] else Insert(Sort(xs[..|xs| - 1], key), xs[|xs| - 1], key)
  }

  /** The elements of one key, in order. */
  function WithKey<T>(xs: seq<T>, key: T -> real, k: real): seq<T> {
    if xs == [] then []
    else WithKey(xs[..|xs| - 1], key, k) + (if key(xs[|xs| - 1]) == k then [xs[|xs| - 1]] else [])
  }

  lemma WithKeySnoc<T>(xs: seq<T>, x: T, key: T -> real, k: real)
    ensures WithKey(xs + [x], key, k) == WithKey(xs, key, k) + (if key(x) == k then [x] else [])
  {
    assert (xs + [x])[..|xs|] == xs;
  }

  lemma {:induction false} InsertMultiset<T>(xs: seq<T>, x: T, key: T -> real)
    ensures multiset(Insert(xs, x, key)) == multiset(xs) + multiset{x}
  {
    if xs != [] && key(xs[|xs| - 1]) > key(x) {
      var front, last := xs[..|xs| - 1], xs[|xs| - 1];
      InsertMultiset(front, x, key);
      assert xs == front + [last];
    }
  }

  lemma {:induction false} InsertBelow<T>(xs: seq<T>, x: T, key: T -> real, bound: real)
    requires key(x) <= bound && forall i :: 0 <= i < |xs| ==> key(xs[i]) <= bound
    ensures forall i :: 0 <= i < |Insert(xs, x, key)| ==> key(Insert(xs, x, key)[i]) <= bound
  {
    if xs != [] && key(xs[|xs| - 1]) > key(x) {
      InsertBelow(xs[..|xs| - 1], x, key, bound);
    }
  }

  lemma {:induction false} InsertSorted<T>(xs: seq<T>, x: T, key: T -> real)
    requires Sorted(xs, key)
    ensures Sorted(Insert(xs, x, key), key)
  {
    if xs != [] && key(xs[|xs| - 1]) > key(x) {
      InsertSorted(xs[..|xs| - 1], x, key);
      InsertBelow(xs[..|xs| - 1], x, key, key(xs[|xs| - 1]));
    }
  }

  lemma {:induction false} InsertStable<T>(xs: seq<T>, x: T, key: T -> real, k: real)
    requires Sorted(xs, key)
    ensures WithKey(Insert(xs, x, key), key, k) == WithKey(xs, key, k) + (if key(x) == k then [x] else [])
  {
    if xs != [] && key(xs[|xs| - 1]) > key(x) {
      var front, last := xs[..|xs| - 1], xs[|xs| - 1];
      InsertStable(front, x, key, k);
      WithKeySnoc(Insert(front, x, key), last, key, k);
    } else {
      WithKeySnoc(xs, x, key, k);
    }
  }

  /** The sort is a stable permutation into ascending order. */
  lemma {:induction false} SortMeaning<T>(xs: seq<T>, key: T -> real)
    ensures Sorted(Sort(xs, key), key)
    ensures multiset(Sort(xs, key)) == multiset(xs) && |Sort(xs, key)| == |xs|
    ensures forall k :: WithKey(Sort(xs, key), key, k) == WithKey(xs, key, k)
  {
    if xs != [] {
      var front, last := xs[..|xs| - 1], xs[|xs| - 1];
      SortMeaning(front, key);
      InsertSorted(Sort(front, key), last, key);
      InsertMultiset(Sort(front, key), last, key);
      assert xs == front + [last];
      assert |multiset(Sort(xs, key))| == |multiset(xs)|;
      forall k
        ensures WithKey(Sort(xs, key), key, k) == WithKey(xs, key, k)
      {
        InsertStable(Sort(front, key), last, key, k);
      }
    }
  }

  /** What is sorted stays as it is. */
  lemma {:induction false} SortIdle<T>(xs: seq<T>, key: T -> real)
    requires Sorted(xs, key)
    ensures Sort(xs, key) == xs
  {
    if xs != [] {
      var front := xs[..|xs| - 1];
      SortIdle(front, key);
      assert xs == front + [xs[|xs| - 1]];
    }
  }

  predicate Ascending(xs: seq<real>) {
    forall i, j :: 0 <= i < j < |xs| ==> xs[i] <= xs[j]
  }

  lemma FrontMultiset<T>(xs: seq<T>)
    requires xs != []
    ensures multiset(xs[..|xs| - 1]) + multiset{xs[|xs| - 1]} == multiset(xs)
  {
    assert xs == xs[..|xs| - 1] + [xs[|xs| - 1]];
  }

  lemma LastIsMaximum(xs: seq<real>, x: real)
    requires Ascending(xs) && x in multiset(xs)
    ensures xs != [] && x <= xs[|xs| - 1]
  {
  }

  lemma Cancel<T>(a: multiset<T>, b: multiset<T>, x: T)
    requires a + multiset{x} == b + multiset{x}
    ensures a == b
  {
    assert a == (a + multiset{x}) - multiset{x};
    assert b == (b + multiset{x}) - multiset{x};
  }

  /** Numbers have one ascending order. */
  lemma {:induction false} AscendingUnique(xs: seq<real>, ys: seq<real>)
    requires Ascending(xs) && Ascending(ys) && multiset(xs) == multiset(ys)
    ensures xs == ys
  {
    if xs == [] || ys == [] {
      assert |multiset(xs)| == |xs| && |multiset(ys)| == |ys|;
    } else {
      hide Ascending;
      FrontsAgree(xs, ys);
      AscendingUnique(xs[..|xs| - 1], ys[..|ys| - 1]);
      assert xs == xs[..|xs| - 1] + [xs[|xs| - 1]] && ys == ys[..|ys| - 1] + [ys[|ys| - 1]];
    }
  }

  lemma FrontsAgree(xs: seq<real>, ys: seq<real>)
    requires xs != [] && ys != [] && Ascending(xs) && Ascending(ys) && multiset(xs) == multiset(ys)
    ensures xs[|xs| - 1] == ys[|ys| - 1] && multiset(xs[..|xs| - 1]) == multiset(ys[..|ys| - 1])
    ensures Ascending(xs[..|xs| - 1]) && Ascending(ys[..|ys| - 1])
  {
    var x, y := xs[|xs| - 1], ys[|ys| - 1];
    FrontMultiset(xs);
    FrontMultiset(ys);
    LastIsThere(xs);
    LastIsThere(ys);
    LastIsMaximum(xs, y);
    LastIsMaximum(ys, x);
    Cancel(multiset(xs[..|xs| - 1]), multiset(ys[..|ys| - 1]), x);
  }

  lemma LastIsThere(xs: seq<real>)
    requires xs != []
    ensures xs[|xs| - 1] in multiset(xs)
  {
  }

  function Keys<T>(xs: seq<T>, key: T -> real): seq<real> {
    seq(|xs|, i requires 0 <= i < |xs| => key(xs[i]))
  }

  lemma {:induction false} InsertKeys<T>(xs: seq<T>, x: T, key: T -> real)
    ensures multiset(Keys(Insert(xs, x, key), key)) == multiset(Keys(xs, key)) + multiset{key(x)}
  {
    if xs != [] && key(xs[|xs| - 1]) > key(x) {
      var front, last := xs[..|xs| - 1], xs[|xs| - 1];
      InsertKeys(front, x, key);
      KeysSnoc(front, last, key);
      KeysSnoc(Insert(front, x, key), last, key);
      assert xs == front + [last];
    } else {
      KeysSnoc(xs, x, key);
    }
  }

  lemma KeysSnoc<T>(xs: seq<T>, x: T, key: T -> real)
    ensures Keys(xs + [x], key) == Keys(xs, key) + [key(x)]
  {
  }

  lemma {:induction false} SortKeys<T>(xs: seq<T>, key: T -> real)
    ensures multiset(Keys(Sort(xs, key), key)) == multiset(Keys(xs, key))
  {
    if xs != [] {
      var front, last := xs[..|xs| - 1], xs[|xs| - 1];
      SortKeys(front, key);
      InsertKeys(Sort(front, key), last, key);
      KeysSnoc(front, last, key);
      assert xs == front + [last];
    }
  }

  /** 0, 1, …, n - 1. */
  function Ranks(n: nat): seq<real> {
    seq(n, i => i as real)
  }

  /** The keys are 0 to n - 1, each once, in some order. */
  ghost predicate Numbers<T>(xs: seq<T>, key: T -> real) {
    multiset(Keys(xs, key)) == multiset(Ranks(|xs|))
  }

  /** Sorted, the element of key `i` is at position `i`, for every `i`, exactly when the keys number the elements. */
  lemma SortNumbers<T>(xs: seq<T>, key: T -> real)
    ensures Numbers(xs, key) <==> forall i :: 0 <= i < |xs| && i < |Sort(xs, key)| ==> key(Sort(xs, key)[i]) == i as real
  {
    SortMeaning(xs, key);
    SortKeys(xs, key);
    var sorted := Sort(xs, key);
    if Numbers(xs, key) {
      AscendingUnique(Keys(sorted, key), Ranks(|xs|));
      forall i | 0 <= i < |xs|
        ensures key(sorted[i]) == i as real
      {
        assert Keys(sorted, key)[i] == Ranks(|xs|)[i];
      }
    } else {
      assert Keys(sorted, key) != Ranks(|xs|);
    }
  }

  lemma KeysConcat<T>(xs: seq<T>, ys: seq<T>, key: T -> real)
    ensures Keys(xs + ys, key) == Keys(xs, key) + Keys(ys, key)
  {
  }

  /** The keys of a permutation are a permutation of the keys. */
  lemma {:induction false} KeysPermutation<T>(xs: seq<T>, ys: seq<T>, key: T -> real)
    requires multiset(xs) == multiset(ys)
    ensures multiset(Keys(xs, key)) == multiset(Keys(ys, key))
  {
    hide Keys;
    assert |multiset(xs)| == |xs| && |multiset(ys)| == |ys|;
    if xs != [] {
      var front, x := xs[..|xs| - 1], xs[|xs| - 1];
      assert xs == front + [x];
      assert x in multiset(ys);
      var i :| 0 <= i < |ys| && ys[i] == x;
      var before, after := ys[..i], ys[i + 1..];
      assert ys == before + [x] + after;
      assert multiset(ys) == multiset(before + after) + multiset{x};
      Cancel(multiset(front), multiset(before + after), x);
      KeysPermutation(front, before + after, key);
      KeysConcat(front, [x], key);
      KeysConcat(before + [x], after, key);
      KeysConcat(before, [x], key);
      KeysConcat(before, after, key);
    } else {
      assert ys == [];
    }
  }
}
