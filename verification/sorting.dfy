/** Python's `sorted(xs, key=…)`: a stable sort by an integer key. */
module StableSort {
  import opened Lists

  ghost predicate Sorted<T>(s: seq<T>, key: T -> int) {
    forall i, j :: 0 <= i < j < |s| ==> key(s[i]) <= key(s[j])
  }

  /** The elements of `s` whose key is `k`, in their order in `s`. */
  function Filter<T>(s: seq<T>, key: T -> int, k: int): seq<T> {
    if |s| == 0 then []
    else (if key(s[0]) == k then [s[0]] else []) + Filter(s[1..], key, k)
  }

  /** The elements with key `k` keep their relative order. */
  ghost predicate SameRuns<T>(a: seq<T>, b: seq<T>, key: T -> int) {
    forall k :: Filter(a, key, k) == Filter(b, key, k)
  }

  /** Inserts `x` before the first element whose key is not smaller. */
  function Insert<T>(x: T, s: seq<T>, key: T -> int): (r: seq<T>)
    ensures |r| == |s| + 1
  {
    if |s| == 0 || key(x) <= key(s[0]) then [x] + s
    else [s[0]] + Insert(x, s[1..], key)
  }

  lemma {:induction false} InsertElements<T>(x: T, s: seq<T>, key: T -> int)
    ensures multiset(Insert(x, s, key)) == multiset(s) + multiset{x}
  {
    if |s| > 0 && key(x) > key(s[0]) {
      InsertElements(x, s[1..], key);
      assert s == [s[0]] + s[1..];
    }
  }

  lemma {:induction false} InsertSorted<T>(x: T, s: seq<T>, key: T -> int)
    requires Sorted(s, key)
    ensures Sorted(Insert(x, s, key), key)
  {
    if |s| > 0 && key(x) > key(s[0]) {
      var t := Insert(x, s[1..], key);
      InsertSorted(x, s[1..], key);
      InsertElements(x, s[1..], key);
      forall j | 0 <= j < |t|
        ensures key(s[0]) <= key(t[j])
      {
        assert t[j] in multiset(t);
        if t[j] != x {
          assert t[j] in multiset(s[1..]);
          var i :| 0 <= i < |s[1..]| && s[1..][i] == t[j];
          assert s[i + 1] == t[j];
        }
      }
    }
  }

  lemma FilterCons<T>(h: T, t: seq<T>, key: T -> int, k: int)
    ensures Filter([h] + t, key, k) == (if key(h) == k then [h] else []) + Filter(t, key, k)
  {
    assert ([h] + t)[1..] == t;
  }

  lemma {:induction false} InsertFilter<T>(x: T, s: seq<T>, key: T -> int, k: int)
    ensures Filter(Insert(x, s, key), key, k) == (if key(x) == k then [x] else []) + Filter(s, key, k)
  {
    var xs := if key(x) == k then [x] else [];
    if |s| == 0 || key(x) <= key(s[0]) {
      assert Insert(x, s, key) == [x] + s;
      FilterCons(x, s, key, k);
    } else {
      var t := Insert(x, s[1..], key);
      assert Insert(x, s, key) == [s[0]] + t;
      var hs := if key(s[0]) == k then [s[0]] else [];
      var f := Filter(s[1..], key, k);
      FilterCons(s[0], t, key, k);
      InsertFilter(x, s[1..], key, k);
      assert Filter(t, key, k) == xs + f;
      FilterCons(s[0], s[1..], key, k);
      assert [s[0]] + s[1..] == s;
      assert Filter(s, key, k) == hs + f;
      if key(x) == k {
        assert hs == [];
      } else {
        assert xs == [];
      }
    }
  }

  /** `sorted(s, key=key)`: ascending by key, a permutation of `s`, and
      elements with equal keys in their original order. */
  function SortBy<T>(s: seq<T>, key: T -> int): (r: seq<T>)
    ensures |r| == |s|
    ensures Sorted(r, key)
    ensures multiset(r) == multiset(s)
    ensures SameRuns(r, s, key)
  {
    if |s| == 0 then []
    else
      var t := SortBy(s[1..], key);
      assert s == [s[0]] + s[1..];
      var r := Insert(s[0], t, key);
      InsertSorted(s[0], t, key);
      InsertElements(s[0], t, key);
      assert forall k :: Filter(r, key, k) == Filter(s, key, k) by {
        forall k
          ensures Filter(r, key, k) == Filter(s, key, k)
        {
          InsertFilter(s[0], t, key, k);
        }
      }
      r
  }

  lemma {:induction false} FilterWitness<T>(s: seq<T>, key: T -> int, k: int)
    requires |Filter(s, key, k)| > 0
    ensures exists j :: 0 <= j < |s| && key(s[j]) == k
  {
    if key(s[0]) != k {
      FilterWitness(s[1..], key, k);
      var j :| 0 <= j < |s[1..]| && key(s[1..][j]) == k;
      assert key(s[j + 1]) == k;
    }
  }

  /** A sorted sequence is determined by what it holds for each key: two
      sorted sequences with the same elements per key, in the same order,
      are equal. So `SortBy` is the only stable sort. */
  lemma {:induction false} SortedUnique<T>(a: seq<T>, b: seq<T>, key: T -> int)
    requires Sorted(a, key) && Sorted(b, key)
    requires SameRuns(a, b, key)
    ensures a == b
    decreases |a|
  {
    if |a| > 0 && |b| > 0 {
      var m, n := key(a[0]), key(b[0]);
      FilterCons(a[0], a[1..], key, m);
      FilterCons(b[0], b[1..], key, n);
      assert [a[0]] + a[1..] == a && [b[0]] + b[1..] == b;
      FilterWitness(b, key, m);
      FilterWitness(a, key, n);
      assert m == n;
      assert Filter(a, key, m) == [a[0]] + Filter(a[1..], key, m);
      assert Filter(b, key, m) == [b[0]] + Filter(b[1..], key, m);
      assert Filter(a, key, m) == Filter(b, key, m);
      assert Filter(a, key, m)[0] == a[0] && Filter(b, key, m)[0] == b[0];
      forall k
        ensures Filter(a[1..], key, k) == Filter(b[1..], key, k)
      {
        var hs := if key(a[0]) == k then [a[0]] else [];
        FilterCons(a[0], a[1..], key, k);
        FilterCons(b[0], b[1..], key, k);
        assert Filter(a, key, k) == Filter(b, key, k);
        assert (hs + Filter(a[1..], key, k))[|hs|..] == Filter(a[1..], key, k);
        assert (hs + Filter(b[1..], key, k))[|hs|..] == Filter(b[1..], key, k);
      }
      SortedUnique(a[1..], b[1..], key);
    } else {
      FilterHead(a, key);
      FilterHead(b, key);
    }
  }

  lemma FilterHead<T>(s: seq<T>, key: T -> int)
    ensures |s| > 0 ==> |Filter(s, key, key(s[0]))| > 0
  {
  }

  /** Any sorted rearrangement that keeps equal keys in order is `SortBy`. */
  lemma StableSortIsSortBy<T>(s: seq<T>, r: seq<T>, key: T -> int)
    requires Sorted(r, key) && SameRuns(r, s, key)
    ensures r == SortBy(s, key)
  {
    var t := SortBy(s, key);
    assert SameRuns(r, t, key) by {
      forall k
        ensures Filter(r, key, k) == Filter(t, key, k)
      {
        assert Filter(r, key, k) == Filter(s, key, k);
      }
    }
    SortedUnique(r, t, key);
  }

  /** Inserting commutes with a projection that keeps the key. */
  lemma {:induction false} InsertMap<T, U>(x: T, s: seq<T>, key: T -> int, p: T -> U, key2: U -> int)
    requires forall t :: key(t) == key2(p(t))
    ensures MapSeq(p, Insert(x, s, key)) == Insert(p(x), MapSeq(p, s), key2)
  {
    var ms := MapSeq(p, s);
    if |s| == 0 || key(x) <= key(s[0]) {
      assert MapSeq(p, [x] + s) == [p(x)] + ms;
    } else {
      InsertMap(x, s[1..], key, p, key2);
      assert ms[1..] == MapSeq(p, s[1..]);
      var t := Insert(x, s[1..], key);
      assert MapSeq(p, [s[0]] + t) == [p(s[0])] + MapSeq(p, t);
    }
  }

  /** Sorting commutes with a projection that keeps the key: sorting the
      projected records gives the projections of the sorted records. */
  lemma {:induction false} SortByMap<T, U>(s: seq<T>, key: T -> int, p: T -> U, key2: U -> int)
    requires forall t :: key(t) == key2(p(t))
    ensures MapSeq(p, SortBy(s, key)) == SortBy(MapSeq(p, s), key2)
  {
    if |s| > 0 {
      SortByMap(s[1..], key, p, key2);
      assert MapSeq(p, s)[1..] == MapSeq(p, s[1..]);
      InsertMap(s[0], SortBy(s[1..], key), key, p, key2);
    }
  }
}
