/** What Array.prototype.sort promises (it is stable since ECMAScript 2019): the rows in key order,
    rows with equal keys in the order they came in. */
module StableSort {

  /** Sort keys are finite: dates are valid. */
  type Key = int

  function Insert<T>(key: T -> Key, x: T, ys: seq<T>): (r: seq<T>) {
    if ys == [] then [x]
    else if key(x) <= key(ys[0]) then [x] + ys
    else [ys[0]] + Insert(key, x, ys[1..])
  }

  function Sort<T>(key: T -> Key, xs: seq<T>): (r: seq<T>) {
    if xs == [] then [] else Insert(key, xs[0], Sort(key, xs[1..]))
  }

  function Filter<T>(p: T -> bool, xs: seq<T>): (r: seq<T>)
    ensures forall x :: x in r ==> x in xs && p(x)
  {
    if xs == [] then [] else (if p(xs[0]) then [xs[0]] else []) + Filter(p, xs[1..])
  }

  predicate Sorted<T>(key: T -> Key, xs: seq<T>) {
    forall i, j :: 0 <= i <= j < |xs| ==> key(xs[i]) <= key(xs[j])
  }

  lemma {:induction false} FilterKeeps<T>(p: T -> bool, xs: seq<T>, x: T)
    requires x in xs && p(x)
    ensures x in Filter(p, xs)
  {
    if x != xs[0] {
      FilterKeeps(p, xs[1..], x);
    }
  }

  lemma {:induction false} FilterConcat<T>(p: T -> bool, xs: seq<T>, ys: seq<T>)
    ensures Filter(p, xs + ys) == Filter(p, xs) + Filter(p, ys)
  {
    if xs == [] {
      assert xs + ys == ys;
    } else {
      assert (xs + ys)[1..] == xs[1..] + ys;
      FilterConcat(p, xs[1..], ys);
    }
  }

  lemma SortedCons<T>(key: T -> Key, x: T, ys: seq<T>)
    requires Sorted(key, ys) && forall y :: y in ys ==> key(x) <= key(y)
    ensures Sorted(key, [x] + ys)
  {
  }

  lemma SortedFrom<T>(key: T -> Key, x: T, ys: seq<T>)
    requires Sorted(key, ys) && (ys != [] ==> x == ys[0])
    ensures forall y :: y in ys ==> key(x) <= key(y)
  {
  }

  lemma {:induction false} InsertKeeps<T>(key: T -> Key, x: T, ys: seq<T>)
    ensures multiset(Insert(key, x, ys)) == multiset{x} + multiset(ys)
  {
    if ys != [] {
      assert ys == [ys[0]] + ys[1..];
      InsertKeeps(key, x, ys[1..]);
    }
  }

  lemma {:induction false} InsertSorted<T>(key: T -> Key, x: T, ys: seq<T>)
    requires Sorted(key, ys)
    ensures Sorted(key, Insert(key, x, ys))
    ensures multiset(Insert(key, x, ys)) == multiset{x} + multiset(ys)
  {
    InsertKeeps(key, x, ys);
    if ys != [] {
      SortedFrom(key, ys[0], ys);
      if key(x) <= key(ys[0]) {
        SortedCons(key, x, ys);
      } else {
        InsertSorted(key, x, ys[1..]);
        var r := Insert(key, x, ys[1..]);
        hide Sorted, Insert;
        forall y | y in r
          ensures key(ys[0]) <= key(y)
        {
          assert y in multiset(r);
          assert y == x || y in ys[1..];
        }
        SortedCons(key, ys[0], r);
        InsertStep(key, x, ys);
      }
    }
  }

  lemma InsertStep<T>(key: T -> Key, x: T, ys: seq<T>)
    requires ys != [] && key(x) > key(ys[0])
    ensures Insert(key, x, ys) == [ys[0]] + Insert(key, x, ys[1..])
  {
  }

  /** The result is a sorted permutation ... */
  lemma {:induction false} SortSorts<T>(key: T -> Key, xs: seq<T>)
    ensures Sorted(key, Sort(key, xs))
    ensures multiset(Sort(key, xs)) == multiset(xs)
  {
    if xs != [] {
      SortSorts(key, xs[1..]);
      InsertSorted(key, xs[0], Sort(key, xs[1..]));
      assert xs == [xs[0]] + xs[1..];
    }
  }

  lemma {:induction false} InsertKeepsLength<T>(key: T -> Key, x: T, ys: seq<T>)
    ensures |Insert(key, x, ys)| == |ys| + 1
  {
    if ys != [] {
      InsertKeepsLength(key, x, ys[1..]);
    }
  }

  lemma {:induction false} SortKeepsLength<T>(key: T -> Key, xs: seq<T>)
    ensures |Sort(key, xs)| == |xs|
  {
    if xs != [] {
      SortKeepsLength(key, xs[1..]);
      InsertKeepsLength(key, xs[0], Sort(key, xs[1..]));
    }
  }

  lemma {:induction false} FilterInsert<T>(key: T -> Key, p: T -> bool, x: T, ys: seq<T>)
    requires Sorted(key, ys)
    ensures Filter(p, Insert(key, x, ys)) == if p(x) then Insert(key, x, Filter(p, ys)) else Filter(p, ys)
  {
    if ys == [] {
    } else if key(x) <= key(ys[0]) {
      assert ([x] + ys)[1..] == ys;
      var f := Filter(p, ys);
      assert f != [] ==> f[0] in ys;
    } else {
      assert ([ys[0]] + Insert(key, x, ys[1..]))[1..] == Insert(key, x, ys[1..]);
      FilterInsert(key, p, x, ys[1..]);
      var f := Filter(p, ys[1..]);
      if p(ys[0]) {
        assert Filter(p, ys) == [ys[0]] + f && ([ys[0]] + f)[1..] == f;
      } else {
        assert Filter(p, ys) == f;
      }
    }
  }

  /** Sorting commutes with filtering. */
  lemma {:induction false} SortFilter<T>(key: T -> Key, p: T -> bool, xs: seq<T>)
    ensures Filter(p, Sort(key, xs)) == Sort(key, Filter(p, xs))
  {
    if xs != [] {
      SortFilter(key, p, xs[1..]);
      SortSorts(key, xs[1..]);
      FilterInsert(key, p, xs[0], Sort(key, xs[1..]));
      if p(xs[0]) {
        assert Filter(p, xs) == [xs[0]] + Filter(p, xs[1..]);
        assert Filter(p, xs)[1..] == Filter(p, xs[1..]);
      } else {
        assert Filter(p, xs) == Filter(p, xs[1..]);
      }
    }
  }

  lemma {:induction false} SortOfSorted<T>(key: T -> Key, xs: seq<T>)
    requires Sorted(key, xs)
    ensures Sort(key, xs) == xs
  {
    if xs != [] {
      SortOfSorted(key, xs[1..]);
    }
  }

  /** ... that keeps the order of equal keys. */
  lemma SortIsStable<T>(key: T -> Key, xs: seq<T>, k: Key)
    ensures WithKey(key, Sort(key, xs), k) == WithKey(key, xs, k)
  {
    var p := (x: T) => key(x) == k;
    SortFilter(key, p, xs);
    var f := Filter(p, xs);
    assert forall i :: 0 <= i < |f| ==> f[i] in f && key(f[i]) == k;
    SortOfSorted(key, f);
  }

  /** Sorting a suffix first changes nothing. */
  lemma {:induction false} SortSuffix<T>(key: T -> Key, xs: seq<T>, ys: seq<T>)
    ensures Sort(key, xs + Sort(key, ys)) == Sort(key, xs + ys)
  {
    if xs == [] {
      assert xs + Sort(key, ys) == Sort(key, ys) && xs + ys == ys;
      SortSorts(key, ys);
      SortOfSorted(key, Sort(key, ys));
    } else {
      assert (xs + Sort(key, ys))[1..] == xs[1..] + Sort(key, ys) && (xs + ys)[1..] == xs[1..] + ys;
      SortSuffix(key, xs[1..], ys);
    }
  }

  /** The rows with key k, in their order. */
  function WithKey<T>(key: T -> Key, xs: seq<T>, k: Key): seq<T> {
    Filter((x: T) => key(x) == k, xs)
  }

  lemma WithKeyConcat<T>(key: T -> Key, xs: seq<T>, ys: seq<T>, k: Key)
    ensures WithKey(key, xs + ys, k) == WithKey(key, xs, k) + WithKey(key, ys, k)
  {
    FilterConcat((x: T) => key(x) == k, xs, ys);
  }

  ghost predicate SameRows<T>(key: T -> Key, xs: seq<T>, ys: seq<T>, k: Key) {
    WithKey(key, xs, k) == WithKey(key, ys, k)
  }

  lemma HeadOfItsKey<T>(key: T -> Key, xs: seq<T>)
    requires xs != []
    ensures WithKey(key, xs, key(xs[0])) == [xs[0]] + WithKey(key, xs[1..], key(xs[0]))
  {
  }

  lemma SortedHeadIsLeast<T>(key: T -> Key, xs: seq<T>, ys: seq<T>)
    requires Sorted(key, xs) && ys != []
    requires forall k :: SameRows(key, xs, ys, k)
    ensures xs != [] && key(xs[0]) <= key(ys[0])
  {
    HeadOfItsKey(key, ys);
    assert SameRows(key, xs, ys, key(ys[0]));
    assert ys[0] in WithKey(key, ys, key(ys[0]));
    assert ys[0] in WithKey(key, xs, key(ys[0]));
  }

  lemma HeadsAgree<T>(key: T -> Key, xs: seq<T>, ys: seq<T>)
    requires Sorted(key, xs) && Sorted(key, ys) && xs != [] && ys != []
    requires forall k :: SameRows(key, xs, ys, k)
    ensures xs[0] == ys[0]
  {
    SortedHeadIsLeast(key, xs, ys);
    assert forall k :: SameRows(key, xs, ys, k) ==> SameRows(key, ys, xs, k);
    SortedHeadIsLeast(key, ys, xs);
    HeadOfItsKey(key, xs);
    HeadOfItsKey(key, ys);
    assert SameRows(key, xs, ys, key(xs[0]));
    assert xs[0] == WithKey(key, xs, key(xs[0]))[0] == WithKey(key, ys, key(ys[0]))[0] == ys[0];
  }

  lemma TailsAgree<T>(key: T -> Key, xs: seq<T>, ys: seq<T>, k: Key)
    requires xs != [] && ys != [] && xs[0] == ys[0] && SameRows(key, xs, ys, k)
    ensures SameRows(key, xs[1..], ys[1..], k)
  {
    if k == key(xs[0]) {
      HeadOfItsKey(key, xs);
      HeadOfItsKey(key, ys);
      assert WithKey(key, xs, k)[1..] == WithKey(key, xs[1..], k);
      assert WithKey(key, ys, k)[1..] == WithKey(key, ys[1..], k);
    } else {
      assert WithKey(key, xs, k) == WithKey(key, xs[1..], k);
      assert WithKey(key, ys, k) == WithKey(key, ys[1..], k);
    }
  }

  lemma NoRowsOnlyTogether<T>(key: T -> Key, xs: seq<T>, ys: seq<T>)
    requires forall k :: SameRows(key, xs, ys, k)
    ensures xs == [] <==> ys == []
  {
    if xs != [] {
      assert SameRows(key, xs, ys, key(xs[0]));
      HeadOfItsKey(key, xs);
    }
    if ys != [] {
      assert SameRows(key, xs, ys, key(ys[0]));
      HeadOfItsKey(key, ys);
    }
  }

  lemma TailIsSorted<T>(key: T -> Key, xs: seq<T>)
    requires Sorted(key, xs) && xs != []
    ensures Sorted(key, xs[1..])
  {
  }

  /** A sorted sequence is determined by its rows of each key: being sorted, a permutation and stable
      leaves one result. */
  lemma {:induction false} StableSortIsUnique<T>(key: T -> Key, xs: seq<T>, ys: seq<T>)
    requires Sorted(key, xs) && Sorted(key, ys)
    requires forall k :: SameRows(key, xs, ys, k)
    ensures xs == ys
  {
    hide SameRows, Sorted;
    NoRowsOnlyTogether(key, xs, ys);
    if xs != [] {
      HeadsAgree(key, xs, ys);
      forall k
        ensures SameRows(key, xs[1..], ys[1..], k)
      {
        TailsAgree(key, xs, ys, k);
      }
      TailIsSorted(key, xs);
      TailIsSorted(key, ys);
      StableSortIsUnique(key, xs[1..], ys[1..]);
      assert xs == [xs[0]] + xs[1..] && ys == [ys[0]] + ys[1..];
    }
  }
}
