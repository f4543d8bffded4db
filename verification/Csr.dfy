/**
  The compressed adjacency of a list of arcs: how many arcs leave each source,
  where each source's segment starts, and what the scatter writes there.
 */
module Csr {

  datatype Arc<+S> = Arc(source: nat, target: nat, weight: S)

  /** What one adjacency slot holds. */
  function Slot<S>(a: Arc<S>): (nat, S) {
    (a.target, a.weight)
  }

  predicate Within<S>(arcs: seq<Arc<S>>, n: nat) {
    forall i :: 0 <= i < |arcs| ==> arcs[i].source < n && arcs[i].target < n
  }

  predicate SortedBySource<S>(arcs: seq<Arc<S>>) {
    forall i, j :: 0 <= i < j < |arcs| ==> arcs[i].source <= arcs[j].source
  }

  /** How many of the first `j` arcs leave `s`. */
  function OutCount<S>(arcs: seq<Arc<S>>, j: nat, s: nat): nat
    requires j <= |arcs|
  {
    if j == 0 then 0 else OutCount(arcs, j - 1, s) + (if arcs[j - 1].source == s then 1 else 0)
  }

  function InCount<S>(arcs: seq<Arc<S>>, j: nat, t: nat): nat
    requires j <= |arcs|
  {
    if j == 0 then 0 else InCount(arcs, j - 1, t) + (if arcs[j - 1].target == t then 1 else 0)
  }

  /** How many of the first `j` arcs leave a source below `s`: with all arcs, the start of its segment. */
  function Below<S>(arcs: seq<Arc<S>>, j: nat, s: nat): nat
    requires j <= |arcs|
  {
    if j == 0 then 0 else Below(arcs, j - 1, s) + (if arcs[j - 1].source < s then 1 else 0)
  }

  /** The slots of the first `j` arcs that leave `s`, in arc order. */
  function Segment<S>(arcs: seq<Arc<S>>, j: nat, s: nat): seq<(nat, S)>
    requires j <= |arcs|
  {
    if j == 0 then []
    else Segment(arcs, j - 1, s) + (if arcs[j - 1].source == s then [Slot(arcs[j - 1])] else [])
  }

  lemma {:induction false} BelowNext<S>(arcs: seq<Arc<S>>, j: nat, s: nat)
    requires j <= |arcs|
    ensures Below(arcs, j, s + 1) == Below(arcs, j, s) + OutCount(arcs, j, s)
  {
    if j > 0 {
      BelowNext(arcs, j - 1, s);
    }
  }

  lemma {:induction false} BelowEnds<S>(arcs: seq<Arc<S>>, j: nat, n: nat)
    requires j <= |arcs| && Within(arcs, n)
    ensures Below(arcs, j, 0) == 0 && Below(arcs, j, n) == j
  {
    if j > 0 {
      BelowEnds(arcs, j - 1, n);
    }
  }

  lemma {:induction false} BelowMonotone<S>(arcs: seq<Arc<S>>, j: nat, s: nat, u: nat)
    requires j <= |arcs| && s <= u
    ensures Below(arcs, j, s) <= Below(arcs, j, u)
  {
    if s < u {
      BelowMonotone(arcs, j, s, u - 1);
      BelowNext(arcs, j, u - 1);
    }
  }

  lemma {:induction false} CountsGrow<S>(arcs: seq<Arc<S>>, i: nat, j: nat, s: nat)
    requires i <= j <= |arcs|
    ensures OutCount(arcs, i, s) <= OutCount(arcs, j, s)
    ensures i < j && arcs[i].source == s ==> OutCount(arcs, i, s) < OutCount(arcs, j, s)
  {
    if i < j {
      CountsGrow(arcs, i, j - 1, s);
    }
  }

  lemma {:induction false} SegmentLength<S>(arcs: seq<Arc<S>>, j: nat, s: nat)
    requires j <= |arcs|
    ensures |Segment(arcs, j, s)| == OutCount(arcs, j, s)
  {
    if j > 0 {
      SegmentLength(arcs, j - 1, s);
    }
  }

  /** A cursor stays inside its own segment, and segments are disjoint. */
  lemma CursorInside<S>(arcs: seq<Arc<S>>, j: nat, n: nat, s: nat)
    requires j < |arcs| && Within(arcs, n) && s < n && arcs[j].source == s
    ensures Below(arcs, |arcs|, s) + OutCount(arcs, j, s) < Below(arcs, |arcs|, s + 1) <= |arcs|
  {
    CountsGrow(arcs, j, |arcs|, s);
    BelowNext(arcs, |arcs|, s);
    BelowMonotone(arcs, |arcs|, s + 1, n);
    BelowEnds(arcs, |arcs|, n);
  }

  lemma SegmentsDisjoint<S>(arcs: seq<Arc<S>>, s: nat, u: nat, k: nat, l: nat)
    requires s != u && k < OutCount(arcs, |arcs|, s) && l < OutCount(arcs, |arcs|, u)
    ensures Below(arcs, |arcs|, s) + k != Below(arcs, |arcs|, u) + l
  {
    var m := |arcs|;
    BelowNext(arcs, m, s);
    BelowNext(arcs, m, u);
    if s < u {
      BelowMonotone(arcs, m, s + 1, u);
    } else {
      BelowMonotone(arcs, m, u + 1, s);
    }
  }

  /** Every position lies in exactly the segment of some source. */
  ghost predicate Filled<S>(adjacency: seq<(nat, S)>, arcs: seq<Arc<S>>, n: nat) {
    && |adjacency| == |arcs|
    && forall s: nat :: s < n ==> SegmentFilled(adjacency, arcs, s)
  }

  ghost predicate SegmentFilled<S>(adjacency: seq<(nat, S)>, arcs: seq<Arc<S>>, s: nat) {
    var start, end := Below(arcs, |arcs|, s), Below(arcs, |arcs|, s + 1);
    start <= end <= |adjacency| && adjacency[start..end] == Segment(arcs, |arcs|, s)
  }

  /** In arcs sorted by source, the arcs of one source are contiguous. */
  lemma {:induction false} SortedPosition<S>(arcs: seq<Arc<S>>, j: nat, i: nat)
    requires SortedBySource(arcs) && i < j <= |arcs|
    ensures Below(arcs, j, arcs[i].source) <= i < Below(arcs, j, arcs[i].source) + OutCount(arcs, j, arcs[i].source)
    ensures |Segment(arcs, j, arcs[i].source)| == OutCount(arcs, j, arcs[i].source)
    ensures Segment(arcs, j, arcs[i].source)[i - Below(arcs, j, arcs[i].source)] == Slot(arcs[i])
    decreases j
  {
    var s := arcs[i].source;
    SegmentLength(arcs, j - 1, s);
    SegmentLength(arcs, j, s);
    if i < j - 1 {
      SortedPosition(arcs, j - 1, i);
      assert arcs[j - 1].source >= s;
    } else {
      AllBefore(arcs, i, s);
      assert Below(arcs, j, s) + OutCount(arcs, j, s) == j;
    }
  }

  /** Everything before position `i` is at or below the source of arc `i`. */
  lemma {:induction false} AllBefore<S>(arcs: seq<Arc<S>>, j: nat, s: nat)
    requires j <= |arcs|
    requires forall i :: 0 <= i < j ==> arcs[i].source <= s
    ensures Below(arcs, j, s) + OutCount(arcs, j, s) == j
  {
    if j > 0 {
      AllBefore(arcs, j - 1, s);
    }
  }

  /** With arcs sorted by source the adjacency is the arc list itself, slot by slot. */
  lemma SortedAdjacency<S>(adjacency: seq<(nat, S)>, arcs: seq<Arc<S>>, n: nat)
    requires Filled(adjacency, arcs, n) && Within(arcs, n) && SortedBySource(arcs)
    ensures forall i :: 0 <= i < |arcs| ==> adjacency[i] == Slot(arcs[i])
  {
    forall i | 0 <= i < |arcs| ensures adjacency[i] == Slot(arcs[i]) {
      SortedSlot(adjacency, arcs, n, i);
    }
  }

  lemma SortedSlot<S>(adjacency: seq<(nat, S)>, arcs: seq<Arc<S>>, n: nat, i: nat)
    requires Filled(adjacency, arcs, n) && Within(arcs, n) && SortedBySource(arcs) && i < |arcs|
    ensures adjacency[i] == Slot(arcs[i])
  {
    var s := arcs[i].source;
    SortedPosition(arcs, |arcs|, i);
    BelowNext(arcs, |arcs|, s);
    assert SegmentFilled(adjacency, arcs, s);
    var b, e := Below(arcs, |arcs|, s), Below(arcs, |arcs|, s + 1);
    assert adjacency[b..e][i - b] == adjacency[i];
  }

  /** A position inside the segment of `s` belongs to an arc that leaves `s`. */
  lemma SegmentOwner<S>(arcs: seq<Arc<S>>, n: nat, s: nat, i: nat)
    requires Within(arcs, n) && SortedBySource(arcs) && s < n && i < |arcs|
    requires Below(arcs, |arcs|, s) <= i < Below(arcs, |arcs|, s + 1)
    ensures arcs[i].source == s
  {
    var m, u := |arcs|, arcs[i].source;
    SortedPosition(arcs, m, i);
    BelowNext(arcs, m, u);
    if u < s {
      BelowMonotone(arcs, m, u + 1, s);
    } else if s < u {
      BelowMonotone(arcs, m, s + 1, u);
    }
  }
}
