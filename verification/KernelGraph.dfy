/**
  The request-local reconstruction of one corpus's graph: collect, discover
  endpoints, index them, count degrees, lay out offsets, and scatter. Every
  array pass charges one unit per element.
 */
module KernelGraph {
  import opened Wrappers
  import opened Deadline
  import opened Accounting
  import opened StableSort
  import opened Graph
  import opened Csr
  import opened PprSpec

  /** The scan over the whole edge map: one unit per edge of any corpus. */
  method CollectEdges<S>(values: seq<GraphEdge<S>>, corpusId: string, work: WorkCell, deadline: ExecutionDeadline)
    returns (r: Result<seq<GraphEdge<S>>, ExecutionFailure>)
    requires deadline.Valid()
    modifies work, deadline, deadline.mono
    ensures r.Success? ==> r.value == OfCorpus(values, corpusId)
    ensures r.Success? ==> Charged(work, deadline, old(work.counts), old(deadline.completedUnits), |values|)
    ensures r.Failure? ==> Explained(r.error, deadline.Expired(), old(work.counts), old(deadline.completedUnits), |values|)
  {
    hide ExecutionDeadline.Valid, ExecutionDeadline.Expired;
    var guarded := GuardReservation(work, deadline);
    if guarded.Fail? {
      return Failure(guarded.error);
    }
    var edges: seq<GraphEdge<S>> := [];
    for i := 0 to |values|
      invariant edges == OfCorpus(values[..i], corpusId)
      invariant Charged(work, deadline, old(work.counts), old(deadline.completedUnits), i)
    {
      var accounted := AccountGraphScanUnit(work, deadline);
      if accounted.Fail? {
        return Failure(accounted.error);
      }
      FilterConcat((e: GraphEdge<S>) => e.corpusId == corpusId, values[..i], [values[i]]);
      assert values[..i + 1] == values[..i] + [values[i]];
      if values[i].corpusId == corpusId {
        edges := edges + [values[i]];
      }
    }
    assert values[..|values|] == values;
    return Success(edges);
  }

  // ---------- endpoints ----------

  /** The counters after the discovery loop has passed `j` edges and found `found` endpoints. */
  function Discovered(w: WorkCounts, found: nat, j: nat): WorkCounts {
    w.(nodesInitialized := w.nodesInitialized + found,
       edgesVisited := w.edgesVisited + j,
       graphScanUnits := w.graphScanUnits + found + j)
  }

  ghost predicate Discovering(work: WorkCell, deadline: ExecutionDeadline, w0: WorkCounts, c0: nat, found: nat, j: nat)
    reads work, deadline, deadline.mono
  {
    deadline.Valid() && work.counts == Discovered(w0, found, j) && deadline.completedUnits == c0 + found + j
  }

  function Members(ids: seq<string>): set<string> {
    set x | x in ids
  }

  lemma FirstSeenGrows<S>(triples: seq<Triple<S>>, i: nat, j: nat)
    requires i <= j <= |triples|
    ensures |FirstSeen(triples, i)| <= |FirstSeen(triples, j)|
    decreases j
  {
    if i < j {
      FirstSeenGrows(triples, i, j - 1);
    }
  }

  /** `endpoint_ids.insert(id)` and, when it is new, the node push with its charge. */
  method Discover(seen: set<string>, ids: seq<string>, id: string, work: WorkCell, deadline: ExecutionDeadline,
                  ghost w0: WorkCounts, ghost c0: nat, ghost j: nat)
    returns (r: Result<(set<string>, seq<string>), ExecutionFailure>)
    requires seen == Members(ids) && Discovering(work, deadline, w0, c0, |ids|, j)
    modifies work, deadline, deadline.mono
    ensures r.Success? ==> r.value.1 == AddNew(ids, id) && r.value.0 == Members(r.value.1)
    ensures r.Success? ==> Discovering(work, deadline, w0, c0, |r.value.1|, j)
    ensures r.Failure? ==> Explained(r.error, deadline.Expired(), w0, c0, |AddNew(ids, id)| + j)
  {
    if id in seen {
      return Success((seen, ids));
    }
    work.counts := work.counts.(nodesInitialized := work.counts.nodesInitialized + 1);
    var accounted := AccountGraphScanUnit(work, deadline);
    if accounted.Fail? {
      return Failure(accounted.error);
    }
    assert Members(ids + [id]) == seen + {id};
    return Success((seen + {id}, ids + [id]));
  }

  lemma FirstSeenNext<S>(edges: seq<GraphEdge<S>>, j: nat)
    requires j < |edges|
    ensures FirstSeen(Triples(edges), j + 1)
         == AddNew(AddNew(FirstSeen(Triples(edges), j), edges[j].sourceNodeId), edges[j].targetNodeId)
    ensures |AddNew(FirstSeen(Triples(edges), j), edges[j].sourceNodeId)| <= |FirstSeen(Triples(edges), j + 1)|
         <= |FirstSeen(Triples(edges), |edges|)|
  {
    FirstSeenGrows(Triples(edges), j + 1, |edges|);
  }

  /** The discovery loop before edge `j`: the ids found so far, in order, and the counters behind them. */
  ghost predicate FoundSoFar<S>(edges: seq<GraphEdge<S>>, j: nat, found: (set<string>, seq<string>),
                                work: WorkCell, deadline: ExecutionDeadline, w0: WorkCounts, c0: nat)
    reads work, deadline, deadline.mono
  {
    && j <= |edges| && found.1 == FirstSeen(Triples(edges), j) && found.0 == Members(found.1)
    && Discovering(work, deadline, w0, c0, |found.1|, j)
  }

  ghost function DiscoveryCost<S>(edges: seq<GraphEdge<S>>): nat {
    |FirstSeen(Triples(edges), |edges|)| + |edges|
  }

  /** Both endpoints of edge `j`, and the edge's own charge. */
  method DiscoverEdge<S>(edges: seq<GraphEdge<S>>, j: nat, found: (set<string>, seq<string>),
                         work: WorkCell, deadline: ExecutionDeadline, ghost w0: WorkCounts, ghost c0: nat)
    returns (r: Result<(set<string>, seq<string>), ExecutionFailure>)
    requires j < |edges| && FoundSoFar(edges, j, found, work, deadline, w0, c0)
    modifies work, deadline, deadline.mono
    ensures r.Success? ==> FoundSoFar(edges, j + 1, r.value, work, deadline, w0, c0)
    ensures r.Failure? ==> Explained(r.error, deadline.Expired(), w0, c0, DiscoveryCost(edges))
  {
    hide FirstSeen, Triples, AddNew, Members, ExecutionDeadline.Valid, ExecutionDeadline.Expired;
    FirstSeenNext(edges, j);
    var source := Discover(found.0, found.1, edges[j].sourceNodeId, work, deadline, w0, c0, j);
    if source.Failure? {
      return Failure(source.error);
    }
    var target := Discover(source.value.0, source.value.1, edges[j].targetNodeId, work, deadline, w0, c0, j);
    if target.Failure? {
      return Failure(target.error);
    }
    work.counts := work.counts.(edgesVisited := work.counts.edgesVisited + 1);
    var accounted := AccountGraphScanUnit(work, deadline);
    if accounted.Fail? {
      return Failure(accounted.error);
    }
    return target;
  }

  method DiscoverEndpoints<S>(edges: seq<GraphEdge<S>>, work: WorkCell, deadline: ExecutionDeadline)
    returns (r: Result<seq<string>, ExecutionFailure>)
    requires deadline.Valid()
    modifies work, deadline, deadline.mono
    ensures r.Success? ==> r.value == FirstSeen(Triples(edges), |edges|)
    ensures r.Success? ==> Discovering(work, deadline, old(work.counts), old(deadline.completedUnits), |r.value|, |edges|)
    ensures r.Failure? ==> Explained(r.error, deadline.Expired(), old(work.counts), old(deadline.completedUnits),
      DiscoveryCost(edges))
  {
    ghost var w0, c0 := work.counts, deadline.completedUnits;
    var found: (set<string>, seq<string>) := ({}, []);
    assert FoundSoFar(edges, 0, found, work, deadline, w0, c0);
    hide FoundSoFar, Explained, DiscoveryCost;
    for j := 0 to |edges|
      invariant FoundSoFar(edges, j, found, work, deadline, w0, c0)
    {
      var next := DiscoverEdge(edges, j, found, work, deadline, w0, c0);
      if next.Failure? {
        return Failure(next.error);
      }
      found := next.value;
    }
    AllFound(edges, found, work, deadline, w0, c0);
    return Success(found.1);
  }

  lemma AllFound<S>(edges: seq<GraphEdge<S>>, found: (set<string>, seq<string>),
                    work: WorkCell, deadline: ExecutionDeadline, w0: WorkCounts, c0: nat)
    requires FoundSoFar(edges, |edges|, found, work, deadline, w0, c0)
    ensures found.1 == FirstSeen(Triples(edges), |edges|)
    ensures Discovering(work, deadline, w0, c0, |found.1|, |edges|)
  {
  }

  // ---------- the id index ----------

  ghost predicate Indexes(index: map<string, nat>, ids: seq<string>) {
    && (forall id :: id in index <==> id in ids)
    && (forall i :: 0 <= i < |ids| ==> ids[i] in index && index[ids[i]] == i)
  }

  /** The duplicate check on insertion never fires for distinct ids. */
  method BuildIndex(ids: seq<string>, work: WorkCell, deadline: ExecutionDeadline)
    returns (r: Result<map<string, nat>, ExecutionFailure>)
    requires deadline.Valid() && Distinct(ids)
    modifies work, deadline, deadline.mono
    ensures r.Success? ==> Indexes(r.value, ids)
    ensures r.Success? ==> Charged(work, deadline, old(work.counts), old(deadline.completedUnits), |ids|)
    ensures r.Failure? ==> Explained(r.error, deadline.Expired(), old(work.counts), old(deadline.completedUnits), |ids|)
  {
    hide ExecutionDeadline.Valid, ExecutionDeadline.Expired;
    var guarded := GuardReservation(work, deadline);
    if guarded.Fail? {
      return Failure(guarded.error);
    }
    var index: map<string, nat> := map[];
    for i := 0 to |ids|
      invariant Indexes(index, ids[..i])
      invariant Charged(work, deadline, old(work.counts), old(deadline.completedUnits), i)
    {
      if ids[i] in index {
        assert false;
      }
      assert ids[..i + 1] == ids[..i] + [ids[i]];
      index := index[ids[i] := i];
      var accounted := AccountGraphScanUnit(work, deadline);
      if accounted.Fail? {
        return Failure(accounted.error);
      }
    }
    assert ids[..|ids|] == ids;
    return Success(index);
  }

  /** Looking both endpoints up gives the arc of the specification. */
  lemma LookupIsArc<S>(index: map<string, nat>, ids: seq<string>, triples: seq<Triple<S>>, j: nat)
    requires ids == NodeIds(triples) && Indexes(index, ids) && j < |triples|
    ensures triples[j].source in index && triples[j].target in index
    ensures Arcs(ids, triples)[j] == Arc(index[triples[j].source], index[triples[j].target], triples[j].weight)
  {
    NodeIdsAreEndpoints(triples);
    assert triples[j].source in Endpoints(triples) && triples[j].target in Endpoints(triples);
    IndexOfFinds(ids, triples[j].source);
    IndexOfFinds(ids, triples[j].target);
  }

  /** Both lookups of one edge; the missing-endpoint failure is unreachable. */
  method LookupArc<S>(edges: seq<GraphEdge<S>>, index: map<string, nat>, ghost ids: seq<string>, j: nat)
    returns (a: Arc<S>)
    requires ids == NodeIds(Triples(edges)) && Indexes(index, ids) && j < |edges|
    ensures a == Arcs(ids, Triples(edges))[j]
  {
    LookupIsArc(index, ids, Triples(edges), j);
    assert Triples(edges)[j] == TripleOf(edges[j]);
    if edges[j].sourceNodeId !in index || edges[j].targetNodeId !in index {
      assert false;
    }
    return Arc(index[edges[j].sourceNodeId], index[edges[j].targetNodeId], edges[j].weight);
  }

  // ---------- degrees ----------

  /** The three degree arrays hold the counts and weight sums of the first `j` arcs. */
  ghost predicate DegreesOf<S>(A: Arith<S>, arcs: seq<Arc<S>>, j: nat,
                               outDegree: seq<nat>, inDegree: seq<nat>, sums: seq<S>)
    requires j <= |arcs|
  {
    && |outDegree| == |inDegree| == |sums|
    && (forall s: nat :: s < |outDegree| ==> outDegree[s] == OutCount(arcs, j, s))
    && (forall s: nat :: s < |outDegree| ==> inDegree[s] == InCount(arcs, j, s))
    && (forall s: nat :: s < |outDegree| ==> sums[s] == WeightSum(A, arcs, j, s))
  }

  lemma DegreeStep<S>(A: Arith<S>, arcs: seq<Arc<S>>, j: nat, outDegree: seq<nat>, inDegree: seq<nat>, sums: seq<S>)
    requires j < |arcs| && Within(arcs, |outDegree|) && DegreesOf(A, arcs, j, outDegree, inDegree, sums)
    ensures var a := arcs[j];
      && WeightSum(A, arcs, j + 1, a.source) == (A.add)(sums[a.source], a.weight)
      && DegreesOf(A, arcs, j + 1,
           outDegree[a.source := outDegree[a.source] + 1],
           inDegree[a.target := inDegree[a.target] + 1],
           sums[a.source := (A.add)(sums[a.source], a.weight)])
  {
  }

  ghost predicate Apart<S>(outDegree: array<nat>, inDegree: array<nat>, sums: array<S>) {
    outDegree != inDegree && sums as object != outDegree && sums as object != inDegree
  }

  predicate AcceptedUpTo<S>(A: Arith<S>, arcs: seq<Arc<S>>, j: nat)
    requires j <= |arcs|
  {
    j == 0 || (AcceptedUpTo(A, arcs, j - 1) && ArcAccepted(A, arcs, j - 1))
  }

  lemma {:induction false} AcceptedUpToAll<S>(A: Arith<S>, arcs: seq<Arc<S>>, j: nat)
    requires j <= |arcs|
    ensures AcceptedUpTo(A, arcs, j) <==> forall i :: 0 <= i < j ==> ArcAccepted(A, arcs, i)
  {
    if j > 0 {
      AcceptedUpToAll(A, arcs, j - 1);
    }
  }

  lemma EveryArcAccepted<S>(A: Arith<S>, arcs: seq<Arc<S>>)
    requires AcceptedUpTo(A, arcs, |arcs|)
    ensures ArcsAccepted(A, arcs)
  {
    AcceptedUpToAll(A, arcs, |arcs|);
  }

  lemma AllAccepted<S>(A: Arith<S>, arcs: seq<Arc<S>>, j: nat)
    requires j < |arcs|
    ensures ArcsAccepted(A, arcs) ==> ArcAccepted(A, arcs, j)
  {
  }

  /** The first `j` arcs were accepted and are counted. */
  ghost predicate Counted<S>(A: Arith<S>, arcs: seq<Arc<S>>, j: nat,
                             outDegree: array<nat>, inDegree: array<nat>, sums: array<S>)
    requires j <= |arcs|
    reads outDegree, inDegree, sums
  {
    && AcceptedUpTo(A, arcs, j)
    && outDegree.Length == inDegree.Length == sums.Length
    && DegreesOf(A, arcs, j, outDegree[..], inDegree[..], sums[..])
  }

  /** One edge of the degree pass, up to its charge: the only data-dependent failures are its two checks. */
  method AddDegrees<S>(A: Arith<S>, edges: seq<GraphEdge<S>>, index: map<string, nat>, ghost ids: seq<string>,
                       outDegree: array<nat>, inDegree: array<nat>, sums: array<S>, ghost arcs: seq<Arc<S>>, j: nat)
    returns (accepted: bool)
    requires ids == NodeIds(Triples(edges)) && Indexes(index, ids)
    requires arcs == Arcs(ids, Triples(edges)) && j < |arcs| && Within(arcs, outDegree.Length)
    requires Apart(outDegree, inDegree, sums) && Counted(A, arcs, j, outDegree, inDegree, sums)
    modifies outDegree, inDegree, sums
    ensures accepted ==> Counted(A, arcs, j + 1, outDegree, inDegree, sums)
    ensures !accepted ==> !ArcsAccepted(A, arcs)
  {
    hide NodeIds, Arcs, Triples, Indexes, ArcsAccepted, DegreesOf, OutCount, InCount, WeightSum;
    ArcsShape(edges);
    var a := LookupArc(edges, index, ids, j);
    AllAccepted(A, arcs, j);
    if !(A.finite)(a.weight) || (A.less)(a.weight, A.zero) {
      return false;
    }
    DegreeStep(A, arcs, j, outDegree[..], inDegree[..], sums[..]);
    accepted := AddArc(A, a, outDegree, inDegree, sums);
  }

  /** The three array updates of one edge, cut short when the weight sum stops being finite. */
  method AddArc<S>(A: Arith<S>, a: Arc<S>, outDegree: array<nat>, inDegree: array<nat>, sums: array<S>)
    returns (accepted: bool)
    requires Apart(outDegree, inDegree, sums) && outDegree.Length == inDegree.Length == sums.Length
    requires a.source < outDegree.Length && a.target < outDegree.Length
    modifies outDegree, inDegree, sums
    ensures accepted == (A.finite)((A.add)(old(sums[a.source]), a.weight))
    ensures accepted ==> outDegree[..] == old(outDegree[..])[a.source := old(outDegree[a.source]) + 1]
    ensures accepted ==> inDegree[..] == old(inDegree[..])[a.target := old(inDegree[a.target]) + 1]
    ensures accepted ==> sums[..] == old(sums[..])[a.source := (A.add)(old(sums[a.source]), a.weight)]
  {
    outDegree[a.source] := outDegree[a.source] + 1;
    sums[a.source] := (A.add)(sums[a.source], a.weight);
    if !(A.finite)(sums[a.source]) {
      return false;
    }
    inDegree[a.target] := inDegree[a.target] + 1;
    return true;
  }

  lemma ArcsShape<S>(edges: seq<GraphEdge<S>>)
    ensures var ids, triples := NodeIds(Triples(edges)), Triples(edges);
      |Arcs(ids, triples)| == |edges| && Within(Arcs(ids, triples), |ids|)
  {
    ArcsAreWithin(Triples(edges));
  }

  lemma CountedIsAccepted<S>(A: Arith<S>, arcs: seq<Arc<S>>, outDegree: array<nat>, inDegree: array<nat>, sums: array<S>)
    requires Counted(A, arcs, |arcs|, outDegree, inDegree, sums)
    ensures ArcsAccepted(A, arcs)
  {
    EveryArcAccepted(A, arcs);
  }

  method CountDegrees<S>(A: Arith<S>, edges: seq<GraphEdge<S>>, index: map<string, nat>, ghost ids: seq<string>,
                         outDegree: array<nat>, inDegree: array<nat>, sums: array<S>,
                         work: WorkCell, deadline: ExecutionDeadline)
    returns (r: Outcome<ExecutionFailure>)
    requires deadline.Valid() && Apart(outDegree, inDegree, sums)
    requires ids == NodeIds(Triples(edges)) && Indexes(index, ids) && |ids| == outDegree.Length
    requires Counted(A, Arcs(ids, Triples(edges)), 0, outDegree, inDegree, sums)
    modifies outDegree, inDegree, sums, work, deadline, deadline.mono
    ensures var arcs := Arcs(ids, Triples(edges));
      && (r.Pass? ==> Counted(A, arcs, |arcs|, outDegree, inDegree, sums) && ArcsAccepted(A, arcs))
      && (r.Pass? ==> Charged(work, deadline, old(work.counts), old(deadline.completedUnits), |edges|))
      && (r.Fail? ==> Explained(r.error, deadline.Expired(), old(work.counts), old(deadline.completedUnits), |edges|)
                      || (r.error.kind == Integrity && !ArcsAccepted(A, arcs)))
  {
    hide ExecutionDeadline.Valid, ExecutionDeadline.Expired, NodeIds, Arcs, Triples, Indexes, Counted, Within,
      ArcsAccepted, Apart, AcceptedUpTo;
    ghost var arcs := Arcs(ids, Triples(edges));
    ArcsShape(edges);
    for j := 0 to |edges|
      invariant Counted(A, arcs, j, outDegree, inDegree, sums)
      invariant Charged(work, deadline, old(work.counts), old(deadline.completedUnits), j)
    {
      var accepted := AddDegrees(A, edges, index, ids, outDegree, inDegree, sums, arcs, j);
      if !accepted {
        return Fail(ExecutionFailure(Integrity, work.counts));
      }
      :- AccountGraphScanUnit(work, deadline);
    }
    CountedIsAccepted(A, arcs, outDegree, inDegree, sums);
    return Pass;
  }

  // ---------- offsets and scatter ----------

  /** The prefix sums of the out-degrees, with the edge total as sentinel. */
  method BuildOffsets<S>(outDegree: seq<nat>, ghost arcs: seq<Arc<S>>, work: WorkCell, deadline: ExecutionDeadline)
    returns (r: Result<(array<nat>, nat), ExecutionFailure>)
    requires deadline.Valid() && Within(arcs, |outDegree|)
    requires forall s: nat :: s < |outDegree| ==> outDegree[s] == OutCount(arcs, |arcs|, s)
    modifies work, deadline, deadline.mono
    ensures r.Success? ==> fresh(r.value.0) && r.value.0.Length == |outDegree| + 1 && r.value.1 == |arcs|
    ensures r.Success? ==> forall s: nat :: s <= |outDegree| ==> r.value.0[s] == Below(arcs, |arcs|, s)
    ensures r.Success? ==> Charged(work, deadline, old(work.counts), old(deadline.completedUnits), |outDegree| + 1)
    ensures r.Failure? ==> Explained(r.error, deadline.Expired(), old(work.counts), old(deadline.completedUnits), |outDegree| + 1)
  {
    hide ExecutionDeadline.Valid, ExecutionDeadline.Expired, Below, OutCount, Within;
    var n := |outDegree|;
    BelowEnds(arcs, |arcs|, n);
    var offsets :- NewGuardedArray<nat>(n + 1, work, deadline);
    var running := 0;
    for i := 0 to n + 1
      invariant running == Below(arcs, |arcs|, Min(i, n))
      invariant forall s: nat :: s < i ==> offsets[s] == Below(arcs, |arcs|, s)
      invariant Charged(work, deadline, old(work.counts), old(deadline.completedUnits), i)
    {
      offsets[i] := running;
      if i < n {
        BelowNext(arcs, |arcs|, i);
        running := running + outDegree[i];
      }
      var accounted := AccountGraphScanUnit(work, deadline);
      if accounted.Fail? {
        return Failure(accounted.error);
      }
    }
    return Success((offsets, running));
  }

  /** The part of every segment that the first `j` arcs fill, and the cursors behind it. */
  ghost predicate Scattered<S>(arcs: seq<Arc<S>>, j: nat, cursors: seq<nat>, adjacency: seq<(nat, S)>)
    requires j <= |arcs|
  {
    && |adjacency| == |arcs|
    && (forall s: nat :: s < |cursors| ==> cursors[s] == Below(arcs, |arcs|, s) + OutCount(arcs, j, s))
    && (forall s: nat :: s < |cursors| ==> PartFilled(arcs, j, s, adjacency))
  }

  ghost predicate PartFilled<S>(arcs: seq<Arc<S>>, j: nat, s: nat, adjacency: seq<(nat, S)>)
    requires j <= |arcs|
  {
    var start, part := Below(arcs, |arcs|, s), Segment(arcs, j, s);
    start + |part| <= |adjacency| && adjacency[start..start + |part|] == part
  }

  /** A write behind the cursor of its source extends that source's segment. */
  lemma PartGrows<S>(arcs: seq<Arc<S>>, j: nat, before: seq<(nat, S)>, position: nat)
    requires j < |arcs| && |before| == |arcs|
    requires position == Below(arcs, |arcs|, arcs[j].source) + OutCount(arcs, j, arcs[j].source) < |before|
    requires PartFilled(arcs, j, arcs[j].source, before)
    ensures PartFilled(arcs, j + 1, arcs[j].source, before[position := Slot(arcs[j])])
  {
    var s, after := arcs[j].source, before[position := Slot(arcs[j])];
    var start, part := Below(arcs, |arcs|, s), Segment(arcs, j, s);
    SegmentLength(arcs, j, s);
    assert Segment(arcs, j + 1, s) == part + [Slot(arcs[j])];
    hide Below, OutCount, Segment;
    assert after[start..start + |part| + 1] == before[start..start + |part|] + [Slot(arcs[j])];
  }

  /** The cursor of one source is never inside the filled part of another segment. */
  lemma CursorOutside<S>(arcs: seq<Arc<S>>, j: nat, s: nat)
    requires j < |arcs| && s != arcs[j].source
    ensures var start, position := Below(arcs, |arcs|, s), Below(arcs, |arcs|, arcs[j].source) + OutCount(arcs, j, arcs[j].source);
      position < start || start + OutCount(arcs, j, s) <= position
  {
    var u := arcs[j].source;
    var start, position := Below(arcs, |arcs|, s), Below(arcs, |arcs|, u) + OutCount(arcs, j, u);
    assert OutCount(arcs, j + 1, u) == OutCount(arcs, j, u) + 1;
    CountsGrow(arcs, j, |arcs|, s);
    CountsGrow(arcs, j + 1, |arcs|, u);
    hide Below, OutCount;
    if start <= position < start + OutCount(arcs, j, s) {
      SegmentsDisjoint(arcs, s, u, position - start, OutCount(arcs, j, u));
    }
  }

  lemma SegmentKept<S>(arcs: seq<Arc<S>>, j: nat, s: nat)
    requires j < |arcs| && s != arcs[j].source
    ensures Segment(arcs, j + 1, s) == Segment(arcs, j, s)
  {
  }

  /** It leaves every other segment alone. */
  lemma PartKept<S>(arcs: seq<Arc<S>>, j: nat, s: nat, before: seq<(nat, S)>, position: nat)
    requires j < |arcs| && s != arcs[j].source && |before| == |arcs|
    requires position == Below(arcs, |arcs|, arcs[j].source) + OutCount(arcs, j, arcs[j].source) < |before|
    requires PartFilled(arcs, j, s, before)
    ensures PartFilled(arcs, j + 1, s, before[position := Slot(arcs[j])])
  {
    hide Below, OutCount, Segment;
    var after := before[position := Slot(arcs[j])];
    var start, part := Below(arcs, |arcs|, s), Segment(arcs, j, s);
    SegmentLength(arcs, j, s);
    SegmentKept(arcs, j, s);
    CursorOutside(arcs, j, s);
    assert after[start..start + |part|] == before[start..start + |part|];
  }

  lemma PartAfter<S>(arcs: seq<Arc<S>>, j: nat, n: nat, s: nat, before: seq<(nat, S)>, position: nat)
    requires j < |arcs| && Within(arcs, n) && s < n && |before| == |arcs|
    requires position == Below(arcs, |arcs|, arcs[j].source) + OutCount(arcs, j, arcs[j].source) < |before|
    requires PartFilled(arcs, j, s, before)
    ensures PartFilled(arcs, j + 1, s, before[position := Slot(arcs[j])])
  {
    hide PartFilled, Below, OutCount;
    if s == arcs[j].source {
      PartGrows(arcs, j, before, position);
    } else {
      PartKept(arcs, j, s, before, position);
    }
  }

  lemma ScatterStep<S>(arcs: seq<Arc<S>>, j: nat, cursors: seq<nat>, adjacency: seq<(nat, S)>)
    requires j < |arcs| && Within(arcs, |cursors|) && Scattered(arcs, j, cursors, adjacency)
    ensures var u := arcs[j].source;
      && cursors[u] < |adjacency|
      && Scattered(arcs, j + 1, cursors[u := cursors[u] + 1], adjacency[cursors[u] := Slot(arcs[j])])
  {
    var u := arcs[j].source;
    CursorInside(arcs, j, |cursors|, u);
    var after, next := adjacency[cursors[u] := Slot(arcs[j])], j + 1;
    forall s: nat | s < |cursors| ensures PartFilled(arcs, next, s, after) {
      PartAfter(arcs, j, |cursors|, s, adjacency, cursors[u]);
    }
  }

  /** One edge of the scatter pass; its bounds check never fires. */
  method ScatterEdge<S>(edges: seq<GraphEdge<S>>, index: map<string, nat>, ghost ids: seq<string>,
                        cursors: array<nat>, adjacency: array<(nat, S)>, ghost arcs: seq<Arc<S>>, j: nat)
    requires ids == NodeIds(Triples(edges)) && Indexes(index, ids)
    requires arcs == Arcs(ids, Triples(edges)) && j < |arcs| && Within(arcs, cursors.Length)
    requires Scattered(arcs, j, cursors[..], adjacency[..])
    modifies cursors, adjacency
    ensures Scattered(arcs, j + 1, cursors[..], adjacency[..])
  {
    var a := LookupArc(edges, index, ids, j);
    ScatterStep(arcs, j, cursors[..], adjacency[..]);
    ghost var cursorsBefore, slotsBefore := cursors[..], adjacency[..];
    var position := cursors[a.source];
    if position >= adjacency.Length {
      assert false;
    }
    adjacency[position] := (a.target, a.weight);
    cursors[a.source] := position + 1;
    assert adjacency[..] == slotsBefore[position := Slot(arcs[j])];
    assert cursors[..] == cursorsBefore[a.source := cursorsBefore[a.source] + 1];
  }

  method Scatter<S>(edges: seq<GraphEdge<S>>, index: map<string, nat>, ghost ids: seq<string>,
                    cursors: array<nat>, adjacency: array<(nat, S)>, work: WorkCell, deadline: ExecutionDeadline)
    returns (r: Outcome<ExecutionFailure>)
    requires deadline.Valid()
    requires ids == NodeIds(Triples(edges)) && Indexes(index, ids) && |ids| == cursors.Length
    requires Scattered(Arcs(ids, Triples(edges)), 0, cursors[..], adjacency[..])
    modifies cursors, adjacency, work, deadline, deadline.mono
    ensures var arcs := Arcs(ids, Triples(edges));
      && (r.Pass? ==> Scattered(arcs, |arcs|, cursors[..], adjacency[..]))
      && (r.Pass? ==> Charged(work, deadline, old(work.counts), old(deadline.completedUnits), |edges|))
      && (r.Fail? ==> Explained(r.error, deadline.Expired(), old(work.counts), old(deadline.completedUnits), |edges|))
  {
    hide ExecutionDeadline.Valid, ExecutionDeadline.Expired;
    ghost var arcs := Arcs(ids, Triples(edges));
    ArcsAreWithin(Triples(edges));
    assert |arcs| == |edges|;
    hide NodeIds, Arcs, Triples, Indexes, Scattered, Within;
    for j := 0 to |edges|
      invariant Scattered(arcs, j, cursors[..], adjacency[..])
      invariant Charged(work, deadline, old(work.counts), old(deadline.completedUnits), j)
    {
      ScatterEdge(edges, index, ids, cursors, adjacency, arcs, j);
      :- AccountGraphScanUnit(work, deadline);
    }
    return Pass;
  }

  lemma ScatteredIsFilled<S>(arcs: seq<Arc<S>>, cursors: seq<nat>, adjacency: seq<(nat, S)>)
    requires Within(arcs, |cursors|) && Scattered(arcs, |arcs|, cursors, adjacency)
    ensures Filled(adjacency, arcs, |cursors|)
  {
    forall s: nat | s < |cursors| ensures SegmentFilled(adjacency, arcs, s) {
      SegmentLength(arcs, |arcs|, s);
      BelowNext(arcs, |arcs|, s);
      assert PartFilled(arcs, |arcs|, s, adjacency);
    }
  }

  /** The final cursor check: every cursor stopped at the start of the next segment. */
  method CheckCursors<S>(cursors: array<nat>, offsets: array<nat>, ghost arcs: seq<Arc<S>>,
                         work: WorkCell, deadline: ExecutionDeadline)
    returns (r: Outcome<ExecutionFailure>)
    requires deadline.Valid() && offsets.Length == cursors.Length + 1
    requires forall s: nat :: s <= cursors.Length ==> offsets[s] == Below(arcs, |arcs|, s)
    requires forall s: nat :: s < cursors.Length ==>
      cursors[s] == Below(arcs, |arcs|, s) + OutCount(arcs, |arcs|, s)
    modifies work, deadline, deadline.mono
    ensures r.Pass? ==> Charged(work, deadline, old(work.counts), old(deadline.completedUnits), cursors.Length)
    ensures r.Fail? ==> Explained(r.error, deadline.Expired(), old(work.counts), old(deadline.completedUnits), cursors.Length)
  {
    hide ExecutionDeadline.Valid, ExecutionDeadline.Expired;
    for s := 0 to cursors.Length
      invariant Charged(work, deadline, old(work.counts), old(deadline.completedUnits), s)
    {
      BelowNext(arcs, |arcs|, s);
      if cursors[s] != offsets[s + 1] {
        assert false;
      }
      :- AccountGraphScanUnit(work, deadline);
    }
    return Pass;
  }
}
