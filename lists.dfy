/**
 * First-match search, order-keeping filtering and stable sorting, as Array.find, Array.filter and
 * Array.sort do them.
 */
module Lists {
  import opened Wrappers

  /** The first element satisfying p, or None when no element does. */
  function Find<T>(xs: seq<T>, p: T -> bool): (r: Option<T>)
    ensures r.Some? ==> r.value in xs && p(r.value)
    ensures r.None? <==> forall i :: 0 <= i < |xs| ==> !p(xs[i])
  {
    if xs == [] then None
    else if p(xs[0]) then Some(xs[0])
    else Find(xs[1..], p)
  }

  /** The elements satisfying p, in their original order. */
  function Filter<T>(xs: seq<T>, p: T -> bool): (r: seq<T>)
    ensures |r| <= |xs|
    ensures forall i :: 0 <= i < |r| ==> r[i] in xs && p(r[i])
    ensures forall i :: 0 <= i < |xs| && p(xs[i]) ==> xs[i] in r
  {
    if xs == [] then []
    else if p(xs[0]) then [xs[0]] + Filter(xs[1..], p)
    else Filter(xs[1..], p)
  }

  /** Filtering a concatenation filters each part and keeps them in order. */
  lemma {:induction false} FilterAppend<T>(xs: seq<T>, ys: seq<T>, p: T -> bool)
    ensures Filter(xs + ys, p) == Filter(xs, p) + Filter(ys, p)
  {
    if xs == [] {
      assert xs + ys == ys;
    } else {
      assert (xs + ys)[1..] == xs[1..] + ys;
      FilterAppend(xs[1..], ys, p);
    }
  }

  /** Filtering out an element that fails the condition shortens the list. */
  lemma {:induction false} FilterShorter<T>(xs: seq<T>, p: T -> bool, i: nat)
    requires i < |xs| && !p(xs[i])
    ensures |Filter(xs, p)| < |xs|
  {
    if i > 0 {
      assert xs[1..][i - 1] == xs[i];
      FilterShorter(xs[1..], p, i - 1);
    }
  }

  /** Filtering with a condition every element meets changes nothing. */
  lemma {:induction false} FilterAll<T>(xs: seq<T>, p: T -> bool)
    requires forall i :: 0 <= i < |xs| ==> p(xs[i])
    ensures Filter(xs, p) == xs
  {
    if xs != [] {
      FilterAll(xs[1..], p);
    }
  }

  /** Conditions that agree on every element filter alike. */
  lemma {:induction false} FilterSame<T>(xs: seq<T>, p: T -> bool, q: T -> bool)
    requires forall i :: 0 <= i < |xs| ==> p(xs[i]) == q(xs[i])
    ensures Filter(xs, p) == Filter(xs, q)
  {
    if xs != [] {
      FilterSame(xs[1..], p, q);
    }
  }

  // ---- stable sorting by an integer key

  /** Elements ordered by key: each one's key is at most the keys after it. */
  predicate SortedBy<T>(xs: seq<T>, key: T -> int) {
    forall i, j :: 0 <= i < j < |xs| ==> key(xs[i]) <= key(xs[j])
  }

  /** The test for one key value. */
  function HasKey<T>(key: T -> int, k: int): T -> bool {
    (x: T) => key(x) == k
  }

  /** x placed before the first element whose key is not smaller than its own. */
  function InsertByKey<T>(x: T, ys: seq<T>, key: T -> int): (r: seq<T>)
    ensures multiset(r) == multiset(ys) + multiset{x}
  {
    if ys == [] then [x]
    else if key(x) <= key(ys[0]) then [x] + ys
    else
      assert ys == [ys[0]] + ys[1..];
      [ys[0]] + InsertByKey(x, ys[1..], key)
  }

  /**
   * Array.sort with a comparator that subtracts keys: each element is inserted ahead of the later
   * ones it does not exceed, so elements with equal keys keep their order.
   */
  function SortByKey<T>(xs: seq<T>, key: T -> int): (r: seq<T>)
    ensures multiset(r) == multiset(xs)
  {
    if xs == [] then []
    else
      assert xs == [xs[0]] + xs[1..];
      InsertByKey(xs[0], SortByKey(xs[1..], key), key)
  }

  lemma {:induction false} InsertSorted<T>(x: T, ys: seq<T>, key: T -> int)
    requires SortedBy(ys, key)
    ensures SortedBy(InsertByKey(x, ys, key), key)
  {
    if ys != [] && key(ys[0]) < key(x) {
      var rest := InsertByKey(x, ys[1..], key);
      InsertSorted(x, ys[1..], key);
      forall j | 0 <= j < |rest|
        ensures key(ys[0]) <= key(rest[j])
      {
        assert rest[j] in multiset(rest);
        if rest[j] != x {
          assert rest[j] in multiset(ys[1..]);
          var l :| 0 <= l < |ys[1..]| && ys[1..][l] == rest[j];
          assert ys[l + 1] == rest[j];
        }
      }
      assert InsertByKey(x, ys, key) == [ys[0]] + rest;
    }
  }

  /** The sorted result really is in key order. */
  lemma {:induction false} SortSorted<T>(xs: seq<T>, key: T -> int)
    ensures SortedBy(SortByKey(xs, key), key)
  {
    if xs != [] {
      SortSorted(xs[1..], key);
      InsertSorted(xs[0], SortByKey(xs[1..], key), key);
    }
  }

  /** Filtering a sequence with a first element decides that element, then filters the rest. */
  lemma FilterCons<T>(a: T, ys: seq<T>, p: T -> bool)
    ensures Filter([a] + ys, p) == (if p(a) then [a] else []) + Filter(ys, p)
  {
    assert ([a] + ys)[1..] == ys;
  }

  lemma {:induction false} InsertKeeps<T>(x: T, ys: seq<T>, key: T -> int, k: int)
    ensures Filter(InsertByKey(x, ys, key), HasKey(key, k)) ==
      (if key(x) == k then [x] else []) + Filter(ys, HasKey(key, k))
  {
    var p := HasKey(key, k);
    if ys == [] {
      FilterCons(x, [], p);
    } else if key(x) <= key(ys[0]) {
      FilterCons(x, ys, p);
    } else {
      var rest := InsertByKey(x, ys[1..], key);
      assert InsertByKey(x, ys, key) == [ys[0]] + rest;
      assert ys == [ys[0]] + ys[1..];
      FilterCons(ys[0], rest, p);
      FilterCons(ys[0], ys[1..], p);
      InsertKeeps(x, ys[1..], key, k);
      if key(x) == k {
        assert !p(ys[0]);
        assert Filter(InsertByKey(x, ys, key), p) == Filter(rest, p);
        assert Filter(ys, p) == Filter(ys[1..], p);
      } else {
        assert Filter(rest, p) == Filter(ys[1..], p);
      }
    }
  }

  /** The sort is stable: the elements with any one key come out in the order they went in. */
  lemma {:induction false} SortStable<T>(xs: seq<T>, key: T -> int, k: int)
    ensures Filter(SortByKey(xs, key), HasKey(key, k)) == Filter(xs, HasKey(key, k))
  {
    if xs != [] {
      SortStable(xs[1..], key, k);
      InsertKeeps(xs[0], SortByKey(xs[1..], key), key, k);
      FilterCons(xs[0], xs[1..], HasKey(key, k));
      assert xs == [xs[0]] + xs[1..];
    }
  }
}
