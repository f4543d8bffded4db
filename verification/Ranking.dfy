/**
  The bounded ranking: a heap that retains the best `limit` offers of a stream
  and is read off in rank order. It returns what sorting the whole stream and
  keeping the first `limit` keys would return.
 */
module Ranking {
  import opened Wrappers
  import opened Text
  import opened StableSort

  datatype RankedItem<+S, +P> = RankedItem(id: string, score: S, payload: P)

  datatype Key<+S> = Key(score: S, id: string)

  function KeyOf<S, P>(item: RankedItem<S, P>): Key<S> {
    Key(item.score, item.id)
  }

  function Keys<S, P>(items: seq<RankedItem<S, P>>): (r: seq<Key<S>>)
    ensures |r| == |items|
  {
    seq(|items|, i requires 0 <= i < |items| => KeyOf(items[i]))
  }

  /** `ranked_cmp != Greater`: higher score first, then the smaller id. */
  predicate RankLeq<S>(leq: (S, S) -> bool, a: Key<S>, b: Key<S>) {
    !leq(a.score, b.score) || (leq(b.score, a.score) && IdLeq(a.id, b.id))
  }

  function ByRank<S>(leq: (S, S) -> bool): (Key<S>, Key<S>) -> bool {
    (a, b) => RankLeq(leq, a, b)
  }

  lemma RankOrderIsTotal<S(!new)>(leq: (S, S) -> bool)
    requires TotalOrder(leq)
    ensures TotalOrder(ByRank(leq))
  {
    IdOrderIsTotal();
    var r := ByRank(leq);
    forall a, b ensures r(a, b) || r(b, a) {
      assert leq(a.score, b.score) || leq(b.score, a.score);
      assert IdLeq(a.id, b.id) || IdLeq(b.id, a.id);
    }
    forall a, b, c | r(a, b) && r(b, c) ensures r(a, c) {
      RankTransitive(leq, a, b, c);
    }
    forall a, b | r(a, b) && r(b, a) ensures a == b {
      assert leq(a.score, b.score) || leq(b.score, a.score);
    }
  }

  lemma RankReflexive<S(!new)>(leq: (S, S) -> bool, a: Key<S>)
    requires TotalOrder(leq)
    ensures RankLeq(leq, a, a)
  {
    IdOrderIsTotal();
    var s, id := a.score, a.id;
    assert leq(s, s) && IdLeq(id, id);
  }

  lemma RankTransitive<S(!new)>(leq: (S, S) -> bool, a: Key<S>, b: Key<S>, c: Key<S>)
    requires TotalOrder(leq) && RankLeq(leq, a, b) && RankLeq(leq, b, c)
    ensures RankLeq(leq, a, c)
  {
    IdOrderIsTotal();
    assert leq(a.score, b.score) || leq(b.score, a.score);
    assert leq(b.score, c.score) || leq(c.score, b.score);
    assert leq(a.score, c.score) || leq(c.score, a.score);
    if leq(a.score, c.score) {
      assert leq(b.score, a.score) && leq(c.score, b.score);
      assert leq(b.score, c.score) && leq(a.score, b.score);
      assert IdLeq(a.id, b.id) && IdLeq(b.id, c.id);
    }
  }

  // ---------- first `limit` of the sorted stream ----------

  function Take<T>(s: seq<T>, limit: nat): seq<T> {
    if |s| <= limit then s else s[..limit]
  }

  lemma {:induction false} InsertLength<T>(leq: (T, T) -> bool, x: T, s: seq<T>)
    ensures |Insert(leq, x, s)| == |s| + 1
  {
    if s != [] && !leq(x, s[0]) {
      InsertLength(leq, x, s[1..]);
    }
  }

  /** Cutting the tail off before an insertion does not change the first `limit` elements after it. */
  lemma {:induction false} TakeInsert<T>(leq: (T, T) -> bool, x: T, s: seq<T>, limit: nat)
    ensures Take(Insert(leq, x, Take(s, limit)), limit) == Take(Insert(leq, x, s), limit)
  {
    InsertLength(leq, x, s);
    InsertLength(leq, x, Take(s, limit));
    if limit == 0 || |s| <= limit {
    } else if leq(x, s[0]) {
      assert ([x] + s[..limit])[..limit] == ([x] + s)[..limit];
    } else {
      TakeInsert(leq, x, s[1..], limit - 1);
      InsertLength(leq, x, s[1..]);
      InsertLength(leq, x, Take(s[1..], limit - 1));
      assert s[..limit] == [s[0]] + s[1..][..limit - 1];
      var a, b := Insert(leq, x, s[1..][..limit - 1]), Insert(leq, x, s[1..]);
      assert a[..limit - 1] == b[..limit - 1];
      assert s[..limit][1..] == s[1..][..limit - 1];
      assert Insert(leq, x, s[..limit]) == [s[0]] + a;
      assert ([s[0]] + a)[..limit] == [s[0]] + a[..limit - 1];
      assert ([s[0]] + b)[..limit] == [s[0]] + b[..limit - 1];
    }
  }

  /** An offer that is no better than the worst retained key is cut again. */
  lemma {:induction false} WorseIsCut<T(!new)>(leq: (T, T) -> bool, x: T, s: seq<T>)
    requires TotalOrder(leq) && Sorted(leq, s)
    requires s != [] ==> leq(s[|s| - 1], x)
    ensures Take(Insert(leq, x, s), |s|) == s
  {
    InsertLength(leq, x, s);
    if s != [] {
      if leq(x, s[0]) {
        forall i | 0 <= i < |s| ensures s[i] == x {
          assert leq(s[0], s[i]) && leq(s[i], s[|s| - 1]);
        }
        assert ([x] + s)[..|s|] == s;
      } else {
        WorseIsCut(leq, x, s[1..]);
        InsertLength(leq, x, s[1..]);
        var r := Insert(leq, x, s[1..]);
        assert ([s[0]] + r)[..|s|] == [s[0]] + r[..|s| - 1];
      }
    }
  }

  /** One more element at the end of the stream is one insertion into the sorted stream. */
  lemma SortAppend<T(!new)>(leq: (T, T) -> bool, s: seq<T>, x: T)
    requires TotalOrder(leq)
    ensures Sort(leq, s + [x]) == Insert(leq, x, Sort(leq, s))
  {
    assert multiset(s + [x]) == multiset([x] + s);
    SortIgnoresInputOrder(leq, s + [x], [x] + s);
    assert ([x] + s)[1..] == s;
  }

  predicate Greatest<T>(leq: (T, T) -> bool, s: seq<T>, i: nat) {
    i < |s| && forall j :: 0 <= j < |s| ==> leq(s[j], s[i])
  }

  function Without<T>(s: seq<T>, i: nat): seq<T>
    requires i < |s|
  {
    s[..i] + s[i + 1..]
  }

  lemma WithoutMultiset<T>(s: seq<T>, i: nat)
    requires i < |s|
    ensures multiset(Without(s, i)) == multiset(s) - multiset{s[i]}
  {
    assert s == s[..i] + [s[i]] + s[i + 1..];
  }

  lemma LastIsGreatest<T(!new)>(leq: (T, T) -> bool, s: seq<T>, sorted: seq<T>, i: nat)
    requires TotalOrder(leq) && Greatest(leq, s, i)
    requires Sorted(leq, sorted) && multiset(sorted) == multiset(s) && |sorted| == |s|
    ensures sorted[|s| - 1] == s[i]
  {
    var last := sorted[|s| - 1];
    assert last in multiset(s) && s[i] in multiset(sorted);
    assert last in s && s[i] in sorted;
    assert leq(last, s[i]);
    var j :| 0 <= j < |sorted| && sorted[j] == s[i];
    assert j == |s| - 1 || leq(sorted[j], last);
  }

  /** Removing a greatest element drops the last element of the sorted order. */
  lemma RemoveGreatest<T(!new)>(leq: (T, T) -> bool, s: seq<T>, i: nat)
    requires TotalOrder(leq) && Greatest(leq, s, i)
    ensures |Sort(leq, s)| == |s| && Sort(leq, s)[|s| - 1] == s[i]
    ensures Sort(leq, Without(s, i)) == Sort(leq, s)[..|s| - 1]
  {
    hide Sort;
    var sorted := Sort(leq, s);
    SortIsSorted(leq, s);
    SortIsPermutation(leq, s);
    LastIsGreatest(leq, s, sorted, i);
    var rest := sorted[..|s| - 1];
    assert sorted == rest + [sorted[|s| - 1]];
    WithoutMultiset(s, i);
    assert multiset(rest) == multiset(s) - multiset{s[i]};
    SortIsSorted(leq, Without(s, i));
    SortIsPermutation(leq, Without(s, i));
    SortedIsUnique(leq, Sort(leq, Without(s, i)), rest);
  }

  // ---------- the heap ----------

  function SortedKeys<S, P>(leq: (S, S) -> bool, items: seq<RankedItem<S, P>>): seq<Key<S>> {
    Sort(ByRank(leq), Keys(items))
  }

  lemma {:induction false} SortThenKeys<S, P>(leq: (S, S) -> bool, items: seq<RankedItem<S, P>>)
    ensures Keys(Sort((a, b) => RankLeq(leq, KeyOf(a), KeyOf(b)), items)) == SortedKeys(leq, items)
  {
    var itemLeq := (a: RankedItem<S, P>, b: RankedItem<S, P>) => RankLeq(leq, KeyOf(a), KeyOf(b));
    if items == [] {
      assert Keys(items) == [];
    } else {
      SortThenKeys(leq, items[1..]);
      InsertThenKeys(leq, items[0], Sort(itemLeq, items[1..]));
      assert Keys(items)[1..] == Keys(items[1..]);
    }
  }

  lemma {:induction false} InsertThenKeys<S, P>(leq: (S, S) -> bool, x: RankedItem<S, P>, s: seq<RankedItem<S, P>>)
    ensures Keys(Insert((a, b) => RankLeq(leq, KeyOf(a), KeyOf(b)), x, s)) == Insert(ByRank(leq), KeyOf(x), Keys(s))
  {
    var itemLeq := (a: RankedItem<S, P>, b: RankedItem<S, P>) => RankLeq(leq, KeyOf(a), KeyOf(b));
    if s == [] || itemLeq(x, s[0]) {
      assert Keys([x] + s) == [KeyOf(x)] + Keys(s);
    } else {
      InsertThenKeys(leq, x, s[1..]);
      var r := Insert(itemLeq, x, s[1..]);
      assert Keys([s[0]] + r) == [KeyOf(s[0])] + Keys(r);
      assert Keys(s)[1..] == Keys(s[1..]);
    }
  }

  /** The library heap: `peek` shows a greatest entry, `pop` removes one, and ties may go either way. */
  class BinaryHeap<S(!new), P> {
    const leq: (S, S) -> bool
    var items: seq<RankedItem<S, P>>

    constructor (leq: (S, S) -> bool)
      ensures this.leq == leq && items == []
    {
      this.leq := leq;
      items := [];
    }

    /** The index of a greatest, that is worst ranked, entry. */
    method Worst() returns (i: nat)
      requires items != [] && TotalOrder(leq)
      ensures Greatest(ByRank(leq), Keys(items), i)
    {
      RankOrderIsTotal(leq);
      i := 0;
      var next := 1;
      RankReflexive(leq, KeyOf(items[0]));
      while next < |items|
        invariant i < next <= |items|
        invariant forall j :: 0 <= j < next ==> RankLeq(leq, KeyOf(items[j]), KeyOf(items[i]))
      {
        assert ByRank(leq)(KeyOf(items[i]), KeyOf(items[next])) || ByRank(leq)(KeyOf(items[next]), KeyOf(items[i]));
        if !RankLeq(leq, KeyOf(items[next]), KeyOf(items[i])) {
          forall j | 0 <= j < next ensures RankLeq(leq, KeyOf(items[j]), KeyOf(items[next])) {
            RankTransitive(leq, KeyOf(items[j]), KeyOf(items[i]), KeyOf(items[next]));
          }
          RankReflexive(leq, KeyOf(items[next]));
          i := next;
        }
        next := next + 1;
      }
    }

    method Push(item: RankedItem<S, P>)
      requires TotalOrder(leq)
      modifies this
      ensures items == old(items) + [item]
      ensures SortedKeys(leq, items) == Insert(ByRank(leq), KeyOf(item), old(SortedKeys(leq, items)))
    {
      RankOrderIsTotal(leq);
      assert Keys(items + [item]) == Keys(items) + [KeyOf(item)];
      SortAppend(ByRank(leq), Keys(items), KeyOf(item));
      items := items + [item];
    }

    method Pop()
      requires TotalOrder(leq) && items != []
      modifies this
      ensures |items| == |old(items)| - 1
      ensures SortedKeys(leq, items) == Take(old(SortedKeys(leq, items)), |old(items)| - 1)
    {
      hide Sort, RankLeq, TotalOrder;
      RankOrderIsTotal(leq);
      var i := Worst();
      RemoveGreatest(ByRank(leq), Keys(items), i);
      SortIsPermutation(ByRank(leq), Keys(items));
      assert Keys(Without(items, i)) == Without(Keys(items), i);
      items := Without(items, i);
    }

    /** `retain_bounded_ranked`. */
    method Retain(id: string, score: S, payload: P, limit: nat)
      requires TotalOrder(leq) && |items| <= limit
      modifies this
      ensures |items| <= limit
      ensures SortedKeys(leq, items) == Take(Insert(ByRank(leq), Key(score, id), old(SortedKeys(leq, items))), limit)
    {
      hide Sort, Insert, RankLeq, TotalOrder;
      RankOrderIsTotal(leq);
      ghost var before := SortedKeys(leq, items);
      SortIsPermutation(ByRank(leq), Keys(items));
      InsertLength(ByRank(leq), Key(score, id), before);
      if limit == 0 {
        return;
      }
      if |items| == limit {
        var worst := Worst();
        if RankLeq(leq, KeyOf(items[worst]), Key(score, id)) {
          SortIsSorted(ByRank(leq), Keys(items));
          RemoveGreatest(ByRank(leq), Keys(items), worst);
          WorseIsCut(ByRank(leq), Key(score, id), before);
          return;
        }
      }
      Push(RankedItem(id, score, payload));
      if |items| > limit {
        Pop();
      }
    }

    /** `finish_bounded_ranking`. */
    method Finish() returns (ranked: seq<RankedItem<S, P>>)
      ensures Keys(ranked) == SortedKeys(leq, items)
      ensures multiset(ranked) == multiset(items)
    {
      ranked := Sort((a, b) => RankLeq(leq, KeyOf(a), KeyOf(b)), items);
      SortThenKeys(leq, items);
      SortIsPermutation((a, b) => RankLeq(leq, KeyOf(a), KeyOf(b)), items);
    }
  }

  /** What is retained after a stream of offers, one `Retain` after another. */
  function Retained<S>(leq: (S, S) -> bool, offers: seq<Key<S>>, limit: nat): seq<Key<S>> {
    if offers == [] then []
    else Take(Insert(ByRank(leq), offers[|offers| - 1], Retained(leq, offers[..|offers| - 1], limit)), limit)
  }

  /** Bounded ranking is sorting and keeping the first `limit`, duplicates, ties and limit zero included. */
  lemma {:induction false} RetainedIsBest<S(!new)>(leq: (S, S) -> bool, offers: seq<Key<S>>, limit: nat)
    requires TotalOrder(leq)
    ensures Retained(leq, offers, limit) == Take(Sort(ByRank(leq), offers), limit)
  {
    if offers != [] {
      var before, x := offers[..|offers| - 1], offers[|offers| - 1];
      RetainedIsBest(leq, before, limit);
      RankOrderIsTotal(leq);
      assert offers == before + [x];
      SortAppend(ByRank(leq), before, x);
      TakeInsert(ByRank(leq), x, Sort(ByRank(leq), before), limit);
    }
  }

  /** `a` may stand before `b`: a higher score, or the same score and an id whose units come first. */
  ghost predicate Precedes<S>(leq: (S, S) -> bool, a: Key<S>, b: Key<S>) {
    leq(b.score, a.score) && (leq(a.score, b.score) ==> a.id == b.id || UnitsBefore(a.id, b.id))
  }

  /** `ranked` are the first `limit` offers: as many as there are, in order, and none left out that should come before. */
  ghost predicate IsTop<S(!new)>(leq: (S, S) -> bool, offers: seq<Key<S>>, limit: nat, ranked: seq<Key<S>>) {
    && |ranked| == Min(limit, |offers|) && multiset(ranked) <= multiset(offers)
    && (forall i, j :: 0 <= i < j < |ranked| ==> Precedes(leq, ranked[i], ranked[j]))
    && (forall i, x :: 0 <= i < |ranked| && x in multiset(offers) - multiset(ranked) ==> Precedes(leq, ranked[i], x))
  }

  lemma RankPrecedes<S(!new)>(leq: (S, S) -> bool, a: Key<S>, b: Key<S>)
    requires TotalOrder(leq) && RankLeq(leq, a, b)
    ensures Precedes(leq, a, b)
  {
    IdOrderByUnits(a.id, b.id);
    assert leq(a.score, b.score) || leq(b.score, a.score);
  }

  lemma LeftOver<T>(kept: seq<T>, rest: seq<T>, x: T) returns (k: nat)
    requires x in multiset(kept + rest) - multiset(kept)
    ensures k < |rest| && rest[k] == x
  {
    assert multiset(kept + rest) - multiset(kept) == multiset(rest);
    k :| 0 <= k < |rest| && rest[k] == x;
  }

  /** Sorting by rank and cutting to the limit leaves exactly the first offers. */
  lemma BestIsTop<S(!new)>(leq: (S, S) -> bool, offers: seq<Key<S>>, limit: nat)
    requires TotalOrder(leq)
    ensures IsTop(leq, offers, limit, Take(Sort(ByRank(leq), offers), limit))
  {
    var sorted := Sort(ByRank(leq), offers);
    var ranked := Take(sorted, limit);
    RankOrderIsTotal(leq);
    SortIsSorted(ByRank(leq), offers);
    SortIsPermutation(ByRank(leq), offers);
    var rest := sorted[|ranked|..];
    assert sorted == ranked + rest;
    hide Sort, RankLeq, TotalOrder;
    forall i, j | 0 <= i < j < |ranked| ensures Precedes(leq, ranked[i], ranked[j]) {
      assert ByRank(leq)(sorted[i], sorted[j]);
      RankPrecedes(leq, sorted[i], sorted[j]);
    }
    forall i, x | 0 <= i < |ranked| && x in multiset(offers) - multiset(ranked) ensures Precedes(leq, ranked[i], x) {
      var k := LeftOver(ranked, rest, x);
      assert ByRank(leq)(sorted[i], sorted[|ranked| + k]);
      RankPrecedes(leq, sorted[i], sorted[|ranked| + k]);
    }
  }

  /** A stream of offers through one heap, then the finished ranking. */
  method RankStream<S(!new), P>(leq: (S, S) -> bool, offers: seq<RankedItem<S, P>>, limit: nat)
    returns (ranked: seq<RankedItem<S, P>>)
    requires TotalOrder(leq)
    ensures Keys(ranked) == Take(Sort(ByRank(leq), Keys(offers)), limit)
    ensures IsTop(leq, Keys(offers), limit, Keys(ranked))
  {
    BestIsTop(leq, Keys(offers), limit);
    var heap := new BinaryHeap<S, P>(leq);
    assert Keys(heap.items) == [];
    for i := 0 to |offers|
      invariant fresh(heap) && heap.leq == leq && |heap.items| <= limit
      invariant SortedKeys(leq, heap.items) == Retained(leq, Keys(offers[..i]), limit)
    {
      var offer := offers[i];
      heap.Retain(offer.id, offer.score, offer.payload, limit);
      ghost var keys := Keys(offers[..i + 1]);
      assert keys[..i] == Keys(offers[..i]) && keys[i] == KeyOf(offer);
    }
    assert offers[..|offers|] == offers;
    RetainedIsBest(leq, Keys(offers), limit);
    ranked := heap.Finish();
  }
}
