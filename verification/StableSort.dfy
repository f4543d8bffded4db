/**
  The reference sort that the interruptible merge sort and the library sorts are
  measured against: stable insertion, the merge of two runs, and the facts that
  make the result unique.
 */
module StableSort {

  ghost predicate TotalPreorder<T(!new)>(leq: (T, T) -> bool) {
    && (forall x, y :: leq(x, y) || leq(y, x))
    && (forall x, y, z :: leq(x, y) && leq(y, z) ==> leq(x, z))
  }

  ghost predicate TotalOrder<T(!new)>(leq: (T, T) -> bool) {
    && TotalPreorder(leq)
    && (forall x, y :: leq(x, y) && leq(y, x) ==> x == y)
  }

  ghost predicate Sorted<T>(leq: (T, T) -> bool, s: seq<T>) {
    forall i, j :: 0 <= i < j < |s| ==> leq(s[i], s[j])
  }

  /** Puts `x` before the first element that is not smaller than it. */
  function Insert<T>(leq: (T, T) -> bool, x: T, s: seq<T>): seq<T> {
    if s == [] || leq(x, s[0]) then [x] + s
    else [s[0]] + Insert(leq, x, s[1..])
  }

  function Sort<T>(leq: (T, T) -> bool, s: seq<T>): seq<T> {
    if s == [] then [] else Insert(leq, s[0], Sort(leq, s[1..]))
  }

  /** One merge: the left run wins ties, and the rest of a run is copied when the other is exhausted. */
  function Merge<T>(leq: (T, T) -> bool, a: seq<T>, b: seq<T>): seq<T>
    decreases |a| + |b|
  {
    if a == [] then b
    else if b == [] then a
    else if leq(a[0], b[0]) then [a[0]] + Merge(leq, a[1..], b)
    else [b[0]] + Merge(leq, a, b[1..])
  }

  function Filter<T>(p: T -> bool, s: seq<T>): seq<T> {
    if s == [] then []
    else (if p(s[0]) then [s[0]] else []) + Filter(p, s[1..])
  }

  lemma {:induction false} FilterConcat<T>(p: T -> bool, a: seq<T>, b: seq<T>)
    ensures Filter(p, a + b) == Filter(p, a) + Filter(p, b)
  {
    if a == [] {
      assert a + b == b;
    } else {
      assert (a + b)[0] == a[0] && (a + b)[1..] == a[1..] + b;
      FilterConcat(p, a[1..], b);
      assert Filter(p, a + b) == (if p(a[0]) then [a[0]] else []) + Filter(p, a[1..] + b);
    }
  }

  lemma {:induction false} InsertMultiset<T>(leq: (T, T) -> bool, x: T, s: seq<T>)
    ensures multiset(Insert(leq, x, s)) == multiset{x} + multiset(s)
  {
    if s != [] && !leq(x, s[0]) {
      InsertMultiset(leq, x, s[1..]);
      assert s == [s[0]] + s[1..];
    }
  }

  lemma {:induction false} SortIsPermutation<T>(leq: (T, T) -> bool, s: seq<T>)
    ensures multiset(Sort(leq, s)) == multiset(s)
    ensures |Sort(leq, s)| == |s|
  {
    if s != [] {
      SortIsPermutation(leq, s[1..]);
      InsertMultiset(leq, s[0], Sort(leq, s[1..]));
      assert s == [s[0]] + s[1..];
    }
    assert |multiset(Sort(leq, s))| == |Sort(leq, s)|;
  }

  lemma {:induction false} InsertKeepsSorted<T(!new)>(leq: (T, T) -> bool, x: T, s: seq<T>)
    requires TotalPreorder(leq) && Sorted(leq, s)
    ensures Sorted(leq, Insert(leq, x, s))
  {
    if s != [] && !leq(x, s[0]) {
      InsertKeepsSorted(leq, x, s[1..]);
      InsertMultiset(leq, x, s[1..]);
      var r := Insert(leq, x, s[1..]);
      forall y | y in r ensures leq(s[0], y) {
        assert y in multiset(r);
        if y != x {
          assert y in s[1..];
        }
      }
    }
  }

  lemma {:induction false} SortIsSorted<T(!new)>(leq: (T, T) -> bool, s: seq<T>)
    requires TotalPreorder(leq)
    ensures Sorted(leq, Sort(leq, s))
  {
    if s != [] {
      SortIsSorted(leq, s[1..]);
      InsertKeepsSorted(leq, s[0], Sort(leq, s[1..]));
    }
  }

  predicate Equivalent<T>(leq: (T, T) -> bool, x: T, y: T) {
    leq(x, y) && leq(y, x)
  }

  lemma {:induction false} InsertIsStable<T(!new)>(leq: (T, T) -> bool, z: T, x: T, s: seq<T>)
    requires TotalPreorder(leq)
    ensures Filter(y => Equivalent(leq, y, z), Insert(leq, x, s))
         == Filter(y => Equivalent(leq, y, z), [x]) + Filter(y => Equivalent(leq, y, z), s)
  {
    var p := y => Equivalent(leq, y, z);
    if s == [] || leq(x, s[0]) {
      FilterConcat(p, [x], s);
    } else {
      InsertIsStable(leq, z, x, s[1..]);
      FilterConcat(p, [s[0]], Insert(leq, x, s[1..]));
      FilterConcat(p, [s[0]], s[1..]);
      assert s == [s[0]] + s[1..];
    }
  }

  /** Stability: the elements equivalent to any `z` keep their input order. */
  lemma {:induction false} SortIsStable<T(!new)>(leq: (T, T) -> bool, z: T, s: seq<T>)
    requires TotalPreorder(leq)
    ensures Filter(y => Equivalent(leq, y, z), Sort(leq, s)) == Filter(y => Equivalent(leq, y, z), s)
  {
    var p := y => Equivalent(leq, y, z);
    if s != [] {
      SortIsStable(leq, z, s[1..]);
      InsertIsStable(leq, z, s[0], Sort(leq, s[1..]));
      FilterConcat(p, [s[0]], s[1..]);
      assert s == [s[0]] + s[1..];
    }
  }

  lemma {:induction false} MergeInsert<T(!new)>(leq: (T, T) -> bool, x: T, a: seq<T>, b: seq<T>)
    requires TotalPreorder(leq)
    ensures Merge(leq, Insert(leq, x, a), b) == Insert(leq, x, Merge(leq, a, b))
    decreases |a| + |b|
  {
    var xa := Insert(leq, x, a);
    if b == [] {
      assert Merge(leq, a, b) == a;
    } else if a == [] || leq(x, a[0]) {
      assert xa[1..] == a;
      if !leq(x, b[0]) {
        MergeInsert(leq, x, a, b[1..]);
        assert Merge(leq, a, b) == [b[0]] + Merge(leq, a, b[1..]) by {
          if a == [] {
            assert b == [b[0]] + b[1..];
          }
        }
      }
    } else {
      assert xa[0] == a[0] && xa[1..] == Insert(leq, x, a[1..]);
      if leq(a[0], b[0]) {
        MergeInsert(leq, x, a[1..], b);
      } else {
        MergeInsert(leq, x, a, b[1..]);
      }
    }
  }

  /** Merging two sorted runs is sorting their concatenation, ties included. */
  lemma {:induction false} MergeOfSorts<T(!new)>(leq: (T, T) -> bool, a: seq<T>, b: seq<T>)
    requires TotalPreorder(leq)
    ensures Merge(leq, Sort(leq, a), Sort(leq, b)) == Sort(leq, a + b)
  {
    if a == [] {
      assert a + b == b;
    } else {
      MergeOfSorts(leq, a[1..], b);
      MergeInsert(leq, a[0], Sort(leq, a[1..]), Sort(leq, b));
      assert (a + b)[1..] == a[1..] + b;
    }
  }

  lemma SortedTail<T>(leq: (T, T) -> bool, s: seq<T>)
    requires s != [] && Sorted(leq, s)
    ensures Sorted(leq, s[1..])
    ensures multiset(s[1..]) == multiset(s) - multiset{s[0]}
    ensures forall x :: x in multiset(s) && x != s[0] ==> leq(s[0], x)
  {
    assert s == [s[0]] + s[1..];
  }

  lemma SortedHeadsAgree<T(!new)>(leq: (T, T) -> bool, a: seq<T>, b: seq<T>)
    requires TotalOrder(leq) && Sorted(leq, a) && Sorted(leq, b)
    requires a != [] && b != [] && multiset(a) == multiset(b)
    ensures a[0] == b[0]
  {
    assert a[0] in multiset(b) && b[0] in multiset(a);
    SortedTail(leq, a);
    SortedTail(leq, b);
  }

  /** Under a total order a sorted sequence is determined by its multiset. */
  lemma {:induction false} SortedIsUnique<T(!new)>(leq: (T, T) -> bool, a: seq<T>, b: seq<T>)
    requires TotalOrder(leq) && Sorted(leq, a) && Sorted(leq, b)
    requires multiset(a) == multiset(b)
    ensures a == b
  {
    if a == [] {
      assert |b| == |multiset(b)| == 0;
    } else {
      assert a[0] in multiset(b);
      SortedHeadsAgree(leq, a, b);
      TailMultisets(a, b);
      assert Sorted(leq, a[1..]) && Sorted(leq, b[1..]);
      SortedIsUnique(leq, a[1..], b[1..]);
      assert a == [a[0]] + a[1..] && b == [b[0]] + b[1..];
    }
  }

  lemma TailMultisets<T>(a: seq<T>, b: seq<T>)
    requires a != [] && b != [] && a[0] == b[0] && multiset(a) == multiset(b)
    ensures multiset(a[1..]) == multiset(b[1..])
  {
    assert a == [a[0]] + a[1..] && b == [b[0]] + b[1..];
    assert multiset(a[1..]) == multiset(a) - multiset{a[0]};
    assert multiset(b[1..]) == multiset(b) - multiset{b[0]};
  }

  lemma SortIgnoresInputOrder<T(!new)>(leq: (T, T) -> bool, a: seq<T>, b: seq<T>)
    requires TotalOrder(leq) && multiset(a) == multiset(b)
    ensures Sort(leq, a) == Sort(leq, b)
  {
    SortIsSorted(leq, a);
    SortIsSorted(leq, b);
    SortIsPermutation(leq, a);
    SortIsPermutation(leq, b);
    SortedIsUnique(leq, Sort(leq, a), Sort(leq, b));
  }
}
