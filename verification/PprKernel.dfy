/**
  `execute_ppr` from admission to the ranked answer: the stages, their exact
  charges, and the proof that an admitted request on a catalogued graph can only
  be stopped by its deadline or by the data-dependent integrity checks.
 */
module PprKernel {
  import opened Wrappers
  import opened Deadline
  import opened Accounting
  import opened Text
  import opened StableSort
  import opened CountedSort
  import opened Graph
  import opened Csr
  import opened Ranking
  import opened PprSpec
  import opened PprOrder
  import opened KernelGraph
  import opened KernelIteration
  import opened Json
  import opened Materialize
  import opened Admission

  // ---------- what the catalog counts ----------

  /** What a successful catalog build says about one corpus. */
  ghost predicate Catalogued<S>(values: seq<GraphEdge<S>>, corpusId: string, nodes: nat, edges: nat) {
    && |values| <= MAX_GRAPH_EDGES
    && edges == |OfCorpus(values, corpusId)|
    && nodes == |Endpoints(Triples(OfCorpus(values, corpusId)))|
  }

  // ---------- stage 1: the canonical edges ----------

  /** The edge comparator orders edges by their triples. */
  function EdgeLeq<S>(A: Arith<S>): (GraphEdge<S>, GraphEdge<S>) -> bool {
    (a, b) => TripleLeq(A.leq, TripleOf(a), TripleOf(b))
  }

  lemma EdgeOrderIsPreorder<S(!new)>(A: Arith<S>)
    requires TotalOrder(A.leq)
    ensures TotalPreorder(EdgeLeq(A))
  {
    TripleOrderIsTotal(A.leq);
    var leq := (a: Triple<S>, b: Triple<S>) => TripleLeq(A.leq, a, b);
    forall a, b ensures EdgeLeq(A)(a, b) || EdgeLeq(A)(b, a) {
      assert leq(TripleOf(a), TripleOf(b)) || leq(TripleOf(b), TripleOf(a));
    }
    forall a, b, c | EdgeLeq(A)(a, b) && EdgeLeq(A)(b, c) ensures EdgeLeq(A)(a, c) {
      assert leq(TripleOf(a), TripleOf(b)) && leq(TripleOf(b), TripleOf(c));
    }
  }

  method PrepareEdges<S(0, !new)>(A: Arith<S>, values: seq<GraphEdge<S>>, corpusId: string, graphEdges: nat,
                                  work: WorkCell, deadline: ExecutionDeadline)
    returns (r: Result<seq<GraphEdge<S>>, ExecutionFailure>)
    requires deadline.Valid() && TotalOrder(A.leq)
    modifies work, deadline, deadline.mono
    ensures var m := |OfCorpus(values, corpusId)|;
      && (r.Success? ==> |r.value| == m == graphEdges && Triples(r.value) == Canonical(A, values, corpusId))
      && (r.Success? ==> Charged(work, deadline, old(work.counts), old(deadline.completedUnits), |values| + SortCost(m)))
      && (r.Failure? ==> Explained(r.error, deadline.Expired(), old(work.counts), old(deadline.completedUnits),
        |values| + SortCost(m))
                         || (r.error.kind == Integrity && m != graphEdges))
  {
    hide ExecutionDeadline.Valid, ExecutionDeadline.Expired, SortCost;
    var collected := CollectEdges(values, corpusId, work, deadline);
    if collected.Failure? {
      return Failure(collected.error);
    }
    var kept := collected.value;
    if |kept| != graphEdges {
      return Failure(ExecutionFailure(Integrity, work.counts));
    }
    var edges := new GraphEdge<S>[|kept|](i requires 0 <= i < |kept| => kept[i]);
    assert edges[..] == kept;
    EdgeOrderIsPreorder(A);
    var sorted := CanonicalCountedSort(edges, EdgeLeq(A), work, deadline);
    if sorted.Fail? {
      return Failure(sorted.error);
    }
    SortTriples(A.leq, kept);
    SortIsPermutation(EdgeLeq(A), kept);
    return Success(edges[..]);
  }

  // ---------- stage 2: the canonical endpoints ----------

  method PrepareNodes<S>(edges: seq<GraphEdge<S>>, graphNodes: nat, work: WorkCell, deadline: ExecutionDeadline)
    returns (r: Result<seq<string>, ExecutionFailure>)
    requires deadline.Valid()
    modifies work, deadline, deadline.mono
    ensures var n := |NodeIds(Triples(edges))|;
      && (r.Success? ==> r.value == NodeIds(Triples(edges)) && n == graphNodes && deadline.Valid())
      && (r.Success? ==> work.counts == Scanned(Discovered(old(work.counts), n, |edges|), SortCost(n)))
      && (r.Success? ==> deadline.completedUnits == old(deadline.completedUnits) + n + |edges| + SortCost(n))
      && (r.Failure? ==> Explained(r.error, deadline.Expired(), old(work.counts), old(deadline.completedUnits),
        n + |edges| + SortCost(n))
                         || (r.error.kind == Integrity && n != graphNodes))
  {
    hide ExecutionDeadline.Valid, ExecutionDeadline.Expired, SortCost;
    NodeIdsAreEndpoints(Triples(edges));
    var discovered := DiscoverEndpoints(edges, work, deadline);
    if discovered.Failure? {
      return Failure(discovered.error);
    }
    var found := discovered.value;
    var ids := new string[|found|](i requires 0 <= i < |found| => found[i]);
    assert ids[..] == found;
    IdOrderIsTotal();
    var sorted := CanonicalCountedSort(ids, IdLeq, work, deadline);
    if sorted.Fail? {
      return Failure(sorted.error);
    }
    if ids.Length != graphNodes {
      return Failure(ExecutionFailure(Integrity, work.counts));
    }
    return Success(ids[..]);
  }

  // ---------- stage 3: the layout ----------

  /** Three zeroed arrays: `3n` units. */
  method BuildDegreeArrays<S(0)>(A: Arith<S>, n: nat, ghost arcs: seq<Arc<S>>, work: WorkCell, deadline: ExecutionDeadline)
    returns (r: Result<(array<nat>, array<nat>, array<S>), ExecutionFailure>)
    requires deadline.Valid()
    modifies work, deadline, deadline.mono
    ensures r.Success? ==> fresh(r.value.0) && fresh(r.value.1) && fresh(r.value.2)
    ensures r.Success? ==> Apart(r.value.0, r.value.1, r.value.2) && r.value.0.Length == n
    ensures r.Success? ==> Counted(A, arcs, 0, r.value.0, r.value.1, r.value.2)
    ensures r.Success? ==> Charged(work, deadline, old(work.counts), old(deadline.completedUnits), 3 * n)
    ensures r.Failure? ==> Explained(r.error, deadline.Expired(), old(work.counts), old(deadline.completedUnits), 3 * n)
  {
    hide ExecutionDeadline.Valid, ExecutionDeadline.Expired;
    var out := BuildCountedGraphVec(n, (i: nat) => 0 as nat, work, deadline);
    if out.Failure? {
      return Failure(out.error);
    }
    var into := BuildCountedGraphVec(n, (i: nat) => 0 as nat, work, deadline);
    if into.Failure? {
      return Failure(into.error);
    }
    var sums := BuildCountedGraphVec(n, (i: nat) => A.zero, work, deadline);
    if sums.Failure? {
      return Failure(sums.error);
    }
    return Success((out.value, into.value, sums.value));
  }

  /** Index, degree arrays and the degree pass: `4n + m` units. */
  method MeasureGraph<S(0)>(A: Arith<S>, edges: seq<GraphEdge<S>>, ids: seq<string>, work: WorkCell, deadline: ExecutionDeadline)
    returns (r: Result<(map<string, nat>, array<nat>, array<nat>, array<S>), ExecutionFailure>)
    requires deadline.Valid() && ids == NodeIds(Triples(edges))
    modifies work, deadline, deadline.mono
    ensures var arcs := Arcs(ids, Triples(edges));
      && (r.Success? ==> Indexes(r.value.0, ids))
      && (r.Success? ==> r.value.1.Length == |ids| && Counted(A, arcs, |arcs|, r.value.1, r.value.2, r.value.3))
      && (r.Success? ==> ArcsAccepted(A, arcs))
      && (r.Success? ==> Charged(work, deadline, old(work.counts), old(deadline.completedUnits), 4 * |ids| + |edges|))
      && (r.Failure? ==> Explained(r.error, deadline.Expired(), old(work.counts), old(deadline.completedUnits), 4 * |ids| + |edges|)
                         || (r.error.kind == Integrity && !ArcsAccepted(A, arcs)))
  {
    hide ExecutionDeadline.Valid, ExecutionDeadline.Expired;
    NodeIdsAreEndpoints(Triples(edges));
    hide NodeIds, Arcs, Triples, ArcsAccepted, Indexes, Counted, Apart;
    var built := BuildIndex(ids, work, deadline);
    if built.Failure? {
      return Failure(built.error);
    }
    var zeroed := BuildDegreeArrays(A, |ids|, Arcs(ids, Triples(edges)), work, deadline);
    if zeroed.Failure? {
      return Failure(zeroed.error);
    }
    var (out, into, sums) := zeroed.value;
    var counted := CountDegrees(A, edges, built.value, ids, out, into, sums, work, deadline);
    if counted.Fail? {
      return Failure(counted.error);
    }
    return Success((built.value, out, into, sums));
  }

  /** Offsets, cursors, adjacency, scatter and the cursor check: `3n + 2m + 1` units. */
  method LayOutArcs<S(0)>(A: Arith<S>, edges: seq<GraphEdge<S>>, ids: seq<string>, index: map<string, nat>,
                          outDegree: seq<nat>, work: WorkCell, deadline: ExecutionDeadline)
    returns (r: Result<(seq<nat>, seq<(nat, S)>), ExecutionFailure>)
    requires deadline.Valid() && ids == NodeIds(Triples(edges)) && Indexes(index, ids) && |outDegree| == |ids|
    requires var arcs := Arcs(ids, Triples(edges));
      forall s: nat :: s < |ids| ==> outDegree[s] == OutCount(arcs, |arcs|, s)
    modifies work, deadline, deadline.mono
    ensures var arcs := Arcs(ids, Triples(edges));
      && (r.Success? ==> |r.value.0| == |ids| + 1
                         && forall s: nat :: s <= |ids| ==> r.value.0[s] == Below(arcs, |arcs|, s))
      && (r.Success? ==> Filled(r.value.1, arcs, |ids|))
      && (r.Success? ==> Charged(work, deadline, old(work.counts), old(deadline.completedUnits),
                                 3 * |ids| + 1 + 2 * |edges|))
      && (r.Failure? ==> Explained(r.error, deadline.Expired(), old(work.counts), old(deadline.completedUnits),
        3 * |ids| + 1 + 2 * |edges|))
  {
    hide ExecutionDeadline.Valid, ExecutionDeadline.Expired;
    var n := |ids|;
    ghost var arcs := Arcs(ids, Triples(edges));
    ArcsAreWithin(Triples(edges));
    assert |arcs| == |edges|;
    hide NodeIds, Arcs, Triples, Indexes;
    var built := BuildOffsets(outDegree, arcs, work, deadline);
    if built.Failure? {
      return Failure(built.error);
    }
    var offsets := built.value.0[..];
    if built.value.1 != |edges| {
      assert false;
    }
    var cursors := BuildCountedGraphVec(n, i requires 0 <= i < n => offsets[i], work, deadline);
    if cursors.Failure? {
      return Failure(cursors.error);
    }
    var adjacency := BuildCountedGraphVec(|edges|, (i: nat) => (0, A.zero), work, deadline);
    if adjacency.Failure? {
      return Failure(adjacency.error);
    }
    var filled := FillSegments(edges, index, ids, built.value.0, cursors.value, adjacency.value, work, deadline);
    if filled.Fail? {
      return Failure(filled.error);
    }
    return Success((offsets, adjacency.value[..]));
  }

  /** The scatter pass over fresh cursors, and the check that every cursor reached the next segment. */
  method FillSegments<S(0)>(edges: seq<GraphEdge<S>>, index: map<string, nat>, ids: seq<string>, offsets: array<nat>,
                            cursors: array<nat>, adjacency: array<(nat, S)>, work: WorkCell, deadline: ExecutionDeadline)
    returns (r: Outcome<ExecutionFailure>)
    requires deadline.Valid() && ids == NodeIds(Triples(edges)) && Indexes(index, ids)
    requires offsets != cursors && offsets.Length == |ids| + 1 && cursors.Length == |ids| && adjacency.Length == |edges|
    requires var arcs := Arcs(ids, Triples(edges));
      && (forall s: nat :: s <= |ids| ==> offsets[s] == Below(arcs, |arcs|, s))
      && (forall s: nat :: s < |ids| ==> cursors[s] == offsets[s])
    modifies cursors, adjacency, work, deadline, deadline.mono
    ensures r.Pass? ==> Filled(adjacency[..], Arcs(ids, Triples(edges)), |ids|)
    ensures r.Pass? ==> Charged(work, deadline, old(work.counts), old(deadline.completedUnits), |edges| + |ids|)
    ensures r.Fail? ==> Explained(r.error, deadline.Expired(), old(work.counts), old(deadline.completedUnits), |edges| + |ids|)
  {
    hide ExecutionDeadline.Valid, ExecutionDeadline.Expired;
    ghost var arcs, n := Arcs(ids, Triples(edges)), |ids|;
    ArcsAreWithin(Triples(edges));
    assert |arcs| == |edges|;
    hide NodeIds, Arcs, Triples, Indexes;
    StartsScattered(arcs, n, cursors[..], adjacency[..]);
    :- Scatter(edges, index, ids, cursors, adjacency, work, deadline);
    ScatteredIsFilled(arcs, cursors[..], adjacency[..]);
    assert forall s: nat :: s < n ==> cursors[..][s] == Below(arcs, |arcs|, s) + OutCount(arcs, |arcs|, s);
    r := CheckCursors(cursors, offsets, arcs, work, deadline);
  }

  lemma StartsScattered<S>(arcs: seq<Arc<S>>, n: nat, cursors: seq<nat>, adjacency: seq<(nat, S)>)
    requires Within(arcs, n) && |cursors| == n && |adjacency| == |arcs|
    requires forall s: nat :: s < n ==> cursors[s] == Below(arcs, |arcs|, s)
    ensures Scattered(arcs, 0, cursors, adjacency)
  {
    forall s: nat | s < n ensures PartFilled(arcs, 0, s, adjacency) {
      BelowMonotone(arcs, |arcs|, s, n);
      BelowEnds(arcs, |arcs|, n);
    }
  }

  method BuildDamping<S(0)>(A: Arith<S>, threshold: nat, ids: seq<string>, outDegree: seq<nat>, inDegree: seq<nat>,
                            work: WorkCell, deadline: ExecutionDeadline)
    returns (r: Result<seq<S>, ExecutionFailure>)
    requires deadline.Valid() && |ids| == |outDegree| == |inDegree|
    modifies work, deadline, deadline.mono
    ensures r.Success? ==> |r.value| == |ids|
    ensures r.Success? ==> forall v :: 0 <= v < |ids| ==>
      r.value[v] == Damping(A, threshold, ids[v], outDegree[v] + inDegree[v])
    ensures r.Success? ==> Charged(work, deadline, old(work.counts), old(deadline.completedUnits), |ids|)
    ensures r.Failure? ==> Explained(r.error, deadline.Expired(), old(work.counts), old(deadline.completedUnits), |ids|)
  {
    hide ExecutionDeadline.Valid, ExecutionDeadline.Expired;
    var damping := BuildCountedGraphVec(|ids|,
      v requires 0 <= v < |ids| => Damping(A, threshold, ids[v], outDegree[v] + inDegree[v]), work, deadline);
    if damping.Failure? {
      return Failure(damping.error);
    }
    return Success(damping.value[..]);
  }

  /** Segments, damping and teleport vector of a measured graph: `6n + 2m + 1` units. */
  method FinishLayout<S(0)>(A: Arith<S>, plan: Plan<S>, edges: seq<GraphEdge<S>>, ids: seq<string>, index: map<string, nat>,
                            outDegree: seq<nat>, inDegree: seq<nat>, totals: seq<S>, work: WorkCell, deadline: ExecutionDeadline)
    returns (r: Result<Layout<S>, ExecutionFailure>)
    requires deadline.Valid() && Distinct(ids) && ids == NodeIds(Triples(edges)) && Indexes(index, ids)
    requires var arcs := Arcs(ids, Triples(edges));
      DegreesOf(A, arcs, |arcs|, outDegree, inDegree, totals) && |outDegree| == |ids|
    modifies work, deadline, deadline.mono
    ensures r.Success? ==> Assembled(A, plan, Triples(edges), ids, r.value, outDegree, inDegree)
    ensures r.Success? ==> Charged(work, deadline, old(work.counts), old(deadline.completedUnits), 6 * |ids| + 2 * |edges| + 1)
    ensures r.Failure? ==> Explained(r.error, deadline.Expired(), old(work.counts), old(deadline.completedUnits),
      6 * |ids| + 2 * |edges| + 1)
  {
    hide ExecutionDeadline.Valid, ExecutionDeadline.Expired;
    assert |inDegree| == |ids|;
    assert forall s: nat :: s < |ids| ==>
      outDegree[s] == OutCount(Arcs(ids, Triples(edges)), |Arcs(ids, Triples(edges))|, s);
    hide NodeIds, Arcs, Triples, Indexes, Filled, Teleport, Damping, DegreesOf;
    var laid := LayOutArcs(A, edges, ids, index, outDegree, work, deadline);
    if laid.Failure? {
      return Failure(laid.error);
    }
    var damping := BuildDamping(A, plan.hubDegreeThreshold, ids, outDegree, inDegree, work, deadline);
    if damping.Failure? {
      return Failure(damping.error);
    }
    var teleport := BuildTeleport(A, ids, index, plan.seeds, work, deadline);
    if teleport.Failure? {
      return Failure(teleport.error);
    }
    return Success(Layout(laid.value.0, laid.value.1, totals, damping.value, teleport.value));
  }

  lemma NetworkArcs<S>(A: Arith<S>, plan: Plan<S>, triples: seq<Triple<S>>)
    ensures NetworkOf(A, plan, triples).arcs == Arcs(NodeIds(triples), triples)
  {
  }

  /** Everything between the id list and the first score vector: `10n + 3m + 1` units. */
  method BuildLayout<S(0, !new)>(A: Arith<S>, plan: Plan<S>, edges: seq<GraphEdge<S>>, ids: seq<string>,
                                 work: WorkCell, deadline: ExecutionDeadline)
    returns (r: Result<Layout<S>, ExecutionFailure>)
    requires deadline.Valid() && TotalOrder(A.leq) && ids == NodeIds(Triples(edges))
    requires Sorted((a, b) => TripleLeq(A.leq, a, b), Triples(edges))
    modifies work, deadline, deadline.mono
    ensures var net := NetworkOf(A, plan, Triples(edges));
      && (r.Success? ==> LaysOut(r.value, net, |ids|) && ArcsAccepted(A, net.arcs))
      && (r.Success? ==> Charged(work, deadline, old(work.counts), old(deadline.completedUnits),
                                 10 * |ids| + 3 * |edges| + 1))
      && (r.Failure? ==> Explained(r.error, deadline.Expired(), old(work.counts), old(deadline.completedUnits),
        10 * |ids| + 3 * |edges| + 1)
                         || (r.error.kind == Integrity && !ArcsAccepted(A, net.arcs)))
  {
    hide ExecutionDeadline.Valid, ExecutionDeadline.Expired, NodeIds, Arcs, Triples, ArcsAccepted, NetworkOf, LaysOut, Sorted,
      Indexes, Assembled, AcceptedUpTo, DegreesOf, TotalOrder;
    ghost var triples := Triples(edges);
    NetworkArcs(A, plan, triples);
    NodeIdsAreEndpoints(triples);
    var measured := MeasureGraph(A, edges, ids, work, deadline);
    if measured.Failure? {
      return Failure(measured.error);
    }
    var (index, outDegree, inDegree, sums) := measured.value;
    var outs, ins, totals := outDegree[..], inDegree[..], sums[..];
    var finished := FinishLayout(A, plan, edges, ids, index, outs, ins, totals, work, deadline);
    if finished.Failure? {
      return Failure(finished.error);
    }
    LayoutMatches(A, plan, triples, ids, finished.value, outs, ins);
    return Success(finished.value);
  }

  /** What the stages put together, array by array. */
  ghost predicate Assembled<S>(A: Arith<S>, plan: Plan<S>, triples: seq<Triple<S>>, ids: seq<string>, layout: Layout<S>,
                               outs: seq<nat>, ins: seq<nat>) {
    var arcs := Arcs(ids, triples);
    && DegreesOf(A, arcs, |arcs|, outs, ins, layout.totals) && |outs| == |ids|
    && |layout.offsets| == |ids| + 1
    && (forall s: nat :: s <= |ids| ==> layout.offsets[s] == Below(arcs, |arcs|, s))
    && Filled(layout.adjacency, arcs, |ids|)
    && |layout.damping| == |ids|
    && (forall v :: 0 <= v < |ids| ==>
          layout.damping[v] == Damping(A, plan.hubDegreeThreshold, ids[v], outs[v] + ins[v]))
    && layout.teleport == Teleport(A, ids, plan.seeds)
  }

  lemma LayoutMatches<S(!new)>(A: Arith<S>, plan: Plan<S>, triples: seq<Triple<S>>, ids: seq<string>, layout: Layout<S>,
                               outs: seq<nat>, ins: seq<nat>)
    requires TotalOrder(A.leq) && ids == NodeIds(triples)
    requires Sorted((a, b) => TripleLeq(A.leq, a, b), triples)
    requires Assembled(A, plan, triples, ids, layout, outs, ins)
    ensures LaysOut(layout, NetworkOf(A, plan, triples), |ids|)
  {
    ArcsAreWithin(triples);
    CanonicalArcsSorted(A.leq, triples);
    SortedAdjacency(layout.adjacency, Arcs(ids, triples), |ids|);
    VectorsMatch(A, plan, triples, ids, layout, outs, ins);
    hide TotalOrder, Sorted, Damping, Teleport, Filled, DegreesOf, NodeIds, Below;
  }

  lemma VectorsMatch<S>(A: Arith<S>, plan: Plan<S>, triples: seq<Triple<S>>, ids: seq<string>, layout: Layout<S>,
                        outs: seq<nat>, ins: seq<nat>)
    requires ids == NodeIds(triples) && Assembled(A, plan, triples, ids, layout, outs, ins)
    ensures var net := NetworkOf(A, plan, triples);
      layout.totals == net.totals && layout.damping == net.damping && layout.teleport == net.teleport
  {
    var net, arcs := NetworkOf(A, plan, triples), Arcs(ids, triples);
    hide Damping, Teleport, WeightSum, NodeIds, Arcs, Filled, Below;
    forall v | 0 <= v < |ids| ensures layout.damping[v] == net.damping[v] {
      assert outs[v] + ins[v] == OutCount(arcs, |arcs|, v) + InCount(arcs, |arcs|, v);
    }
  }

  // ---------- stage 4: the power iteration ----------

  function Rounds(round: nat, k: nat): nat {
    if k == 0 then 0 else Rounds(round, k - 1) + round
  }

  lemma {:induction false} RoundsClosed(round: nat, k: nat)
    ensures Rounds(round, k) == k * round
  {
    if k > 0 {
      RoundsClosed(round, k - 1);
      assert (k - 1) * round + round == k * round;
    }
  }

  lemma {:induction false} RoundsIncrease(round: nat, a: nat, b: nat)
    requires a <= b
    ensures Rounds(round, a) <= Rounds(round, b)
  {
    if a < b {
      RoundsIncrease(round, a, b - 1);
    }
  }

  /** The specification, resumed at `iteration`, is still the specification of the whole run. */
  ghost predicate RunningAt<S>(A: Arith<S>, net: Network<S>, plan: Plan<S>, scores: seq<S>, iteration: nat, l1: S,
                               spec: Result<Converged<S>, FailureKind>)
  {
    && WellFormed(net, |scores|) && iteration <= plan.maxIterations
    && Iterate(A, net, plan, scores, iteration, l1) == spec
  }

  lemma IterateUnfolds<S>(A: Arith<S>, net: Network<S>, plan: Plan<S>, scores: seq<S>, iteration: nat, l1: S,
                          spec: Result<Converged<S>, FailureKind>)
    requires RunningAt(A, net, plan, scores, iteration, l1, spec) && iteration < plan.maxIterations
    ensures WellFormed(net, |scores|)
    ensures StepFails(A, net, scores) ==> spec == Failure(Integrity)
    ensures !StepFails(A, net, scores) ==>
              var next := Next(A, net, scores);
              var delta := Delta(A, next, scores, |scores|);
              if (A.less)(delta, plan.convergenceEpsilon) then spec == Success(Converged(next, iteration + 1, true, delta))
              else RunningAt(A, net, plan, next, iteration + 1, delta, spec)
  {
    hide Next, Delta, TotalsUsable;
  }

  /** The counters after `units` more scan units, with the iteration count at `k`. */
  predicate IteratedFrom(w0: WorkCounts, c0: nat, w: WorkCounts, c: nat, units: nat, k: nat) {
    w == Scanned(w0, units).(iterations := k) && c == c0 + units
  }

  /** The loop state `c`, the counters behind it, and the specification it still answers to. */
  ghost predicate LoopAt<S>(A: Arith<S>, net: Network<S>, plan: Plan<S>, n: nat, c: Converged<S>,
                            spec: Result<Converged<S>, FailureKind>, w0: WorkCounts, c0: nat, w: WorkCounts, spent: nat) {
    && c.iterations <= plan.maxIterations && |c.scores| == n
    && (if c.converged then spec == Success(c)
        else RunningAt(A, net, plan, c.scores, c.iterations, c.l1Delta, spec))
    && IteratedFrom(w0, c0, w, spent, Rounds(4 * n + |net.arcs|, c.iterations), c.iterations)
  }

  /** One turn of the loop: it ends the run or leaves it resumable one iteration later. */
  method Turn<S(0)>(A: Arith<S>, layout: Layout<S>, plan: Plan<S>, c: Converged<S>,
                    ghost net: Network<S>, ghost spec: Result<Converged<S>, FailureKind>, ghost w0: WorkCounts, ghost c0: nat,
                    work: WorkCell, deadline: ExecutionDeadline)
    returns (r: Result<Converged<S>, ExecutionFailure>)
    requires deadline.Valid() && LaysOut(layout, net, |c.scores|) && net.t == plan.teleportProbability
    requires LoopAt(A, net, plan, |c.scores|, c, spec, w0, c0, work.counts, deadline.completedUnits)
    requires c.iterations < plan.maxIterations && !c.converged
    modifies work, deadline, deadline.mono
    ensures r.Success? ==> deadline.Valid() && r.value.iterations == c.iterations + 1 && |r.value.scores| == |c.scores|
    ensures r.Success? ==> LoopAt(A, net, plan, |c.scores|, r.value, spec, w0, c0, work.counts, deadline.completedUnits)
    ensures r.Failure? ==> Explained(r.error, deadline.Expired(), w0, c0, Rounds(4 * |c.scores| + |net.arcs|, plan.maxIterations))
                           || (r.error.kind == Integrity && spec == Failure(Integrity))
  {
    hide ExecutionDeadline.Valid, ExecutionDeadline.Expired;
    ghost var w, spent := work.counts, deadline.completedUnits;
    hide LaysOut, LoopAt, Stepped, Rounds, Explained;
    var step := OneIteration(A, layout, plan.teleportProbability, c.scores, net, work, deadline);
    if step.Failure? {
      TurnFails(A, net, plan, c, spec, w0, c0, w, spent, step, deadline.Expired(), work.counts, deadline.completedUnits);
      return Failure(step.error);
    }
    TurnSucceeds(A, net, plan, c, spec, w0, c0, w, spent, step, deadline.Expired(), work.counts, deadline.completedUnits);
    work.counts := work.counts.(iterations := c.iterations + 1);
    return Success(After(A, plan, c, step.value));
  }

  /** The loop state one iteration later. */
  function After<S>(A: Arith<S>, plan: Plan<S>, c: Converged<S>, step: (seq<S>, S)): Converged<S> {
    Converged(step.0, c.iterations + 1, (A.less)(step.1, plan.convergenceEpsilon), step.1)
  }

  lemma ExplainedByRun(failure: ExecutionFailure, expired: bool, w0: WorkCounts, c0: nat, w: WorkCounts, spent: nat,
                       round: nat, k: nat, most: nat)
    requires IteratedFrom(w0, c0, w, spent, Rounds(round, k), k) && k < most
    requires Explained(failure, expired, w, spent, round)
    ensures Explained(failure, expired, w0, c0, Rounds(round, most))
  {
    RoundsIncrease(round, k + 1, most);
  }

  /** A failed iteration is explained by the units of the whole run, or is the specified integrity failure. */
  lemma TurnFails<S>(A: Arith<S>, net: Network<S>, plan: Plan<S>, c: Converged<S>, spec: Result<Converged<S>, FailureKind>,
                     w0: WorkCounts, c0: nat, w: WorkCounts, spent: nat,
                     step: Result<(seq<S>, S), ExecutionFailure>, expired: bool, after: WorkCounts, done: nat)
    requires LoopAt(A, net, plan, |c.scores|, c, spec, w0, c0, w, spent)
    requires c.iterations < plan.maxIterations && !c.converged
    requires step.Failure? && Stepped(A, net, c.scores, step, expired, w, spent, after, done)
    ensures Explained(step.error, expired, w0, c0, Rounds(4 * |c.scores| + |net.arcs|, plan.maxIterations))
            || (step.error.kind == Integrity && spec == Failure(Integrity))
  {
    hide RunningAt, StepFails, Explained, Rounds, IteratedFrom, WellFormed;
    if Explained(step.error, expired, w, spent, 4 * |c.scores| + |net.arcs|) {
      ExplainedByRun(step.error, expired, w0, c0, w, spent, 4 * |c.scores| + |net.arcs|, c.iterations, plan.maxIterations);
    } else {
      IterateUnfolds(A, net, plan, c.scores, c.iterations, c.l1Delta, spec);
    }
  }

  lemma SpentOneMore(w0: WorkCounts, c0: nat, w: WorkCounts, spent: nat, round: nat, k: nat)
    requires IteratedFrom(w0, c0, w, spent, Rounds(round, k), k)
    ensures IteratedFrom(w0, c0, Scanned(w, round).(iterations := k + 1), spent + round, Rounds(round, k + 1), k + 1)
  {
  }

  lemma TurnSucceeds<S>(A: Arith<S>, net: Network<S>, plan: Plan<S>, c: Converged<S>, spec: Result<Converged<S>, FailureKind>,
                        w0: WorkCounts, c0: nat, w: WorkCounts, spent: nat,
                        step: Result<(seq<S>, S), ExecutionFailure>, expired: bool, after: WorkCounts, done: nat)
    requires LoopAt(A, net, plan, |c.scores|, c, spec, w0, c0, w, spent)
    requires c.iterations < plan.maxIterations && !c.converged
    requires step.Success? && Stepped(A, net, c.scores, step, expired, w, spent, after, done)
    ensures LoopAt(A, net, plan, |c.scores|, After(A, plan, c, step.value), spec, w0, c0,
                   after.(iterations := c.iterations + 1), done)
  {
    hide RunningAt, StepFails, Delta, Next, IteratedFrom, Rounds, WellFormed;
    SpentOneMore(w0, c0, w, spent, 4 * |c.scores| + |net.arcs|, c.iterations);
    IterateUnfolds(A, net, plan, c.scores, c.iterations, c.l1Delta, spec);
  }

  /** The iteration loop: `4n + m` units for each iteration. */
  method IterationLoop<S(0)>(A: Arith<S>, layout: Layout<S>, plan: Plan<S>, start: seq<S>, ghost net: Network<S>,
                             ghost spec: Result<Converged<S>, FailureKind>, work: WorkCell, deadline: ExecutionDeadline)
    returns (r: Result<Converged<S>, ExecutionFailure>)
    requires deadline.Valid() && LaysOut(layout, net, |start|) && net.t == plan.teleportProbability
    requires RunningAt(A, net, plan, start, 0, A.zero, spec) && work.counts.iterations == 0
    modifies work, deadline, deadline.mono
    ensures r.Success? ==> spec == Success(r.value) && r.value.iterations <= plan.maxIterations && deadline.Valid()
    ensures r.Success? ==> IteratedFrom(old(work.counts), old(deadline.completedUnits), work.counts, deadline.completedUnits,
                                        Rounds(4 * |start| + |net.arcs|, r.value.iterations), r.value.iterations)
    ensures r.Failure? ==> Explained(r.error, deadline.Expired(), old(work.counts), old(deadline.completedUnits),
                                     Rounds(4 * |start| + |net.arcs|, plan.maxIterations))
                           || (r.error.kind == Integrity && spec == Failure(Integrity))
  {
    hide ExecutionDeadline.Valid, ExecutionDeadline.Expired, LaysOut, LoopAt, RunningAt, IteratedFrom, Rounds, Explained;
    ghost var w0, c0 := work.counts, deadline.completedUnits;
    var c := Converged(start, 0, false, A.zero);
    LoopStarts(A, net, plan, c, spec, w0, c0);
    while c.iterations < plan.maxIterations && !c.converged
      invariant deadline.Valid() && |c.scores| == |start|
      invariant LoopAt(A, net, plan, |start|, c, spec, w0, c0, work.counts, deadline.completedUnits)
      decreases plan.maxIterations - c.iterations
    {
      var turn := Turn(A, layout, plan, c, net, spec, w0, c0, work, deadline);
      if turn.Failure? {
        return Failure(turn.error);
      }
      c := turn.value;
    }
    LoopEnds(A, net, plan, |start|, c, spec, w0, c0, work.counts, deadline.completedUnits);
    return Success(c);
  }

  lemma LoopStarts<S>(A: Arith<S>, net: Network<S>, plan: Plan<S>, c: Converged<S>,
                      spec: Result<Converged<S>, FailureKind>, w0: WorkCounts, c0: nat)
    requires c.iterations == 0 && !c.converged && w0.iterations == 0
    requires RunningAt(A, net, plan, c.scores, 0, c.l1Delta, spec)
    ensures LoopAt(A, net, plan, |c.scores|, c, spec, w0, c0, w0, c0)
  {
  }

  lemma LoopEnds<S>(A: Arith<S>, net: Network<S>, plan: Plan<S>, n: nat, c: Converged<S>,
                    spec: Result<Converged<S>, FailureKind>, w0: WorkCounts, c0: nat, w: WorkCounts, spent: nat)
    requires LoopAt(A, net, plan, n, c, spec, w0, c0, w, spent)
    requires c.iterations >= plan.maxIterations || c.converged
    ensures spec == Success(c) && c.iterations <= plan.maxIterations
    ensures IteratedFrom(w0, c0, w, spent, Rounds(4 * n + |net.arcs|, c.iterations), c.iterations)
  {
  }

  /** What the iterations return over `n` nodes and `m` arcs, and the counters around them. */
  ghost predicate Iterated<S>(spec: Result<Converged<S>, FailureKind>, n: nat, m: nat, most: nat,
                              r: Result<Converged<S>, ExecutionFailure>, expired: bool, w0: WorkCounts, c0: nat,
                              w: WorkCounts, c: nat) {
    match r
    case Success(scored) =>
      && spec == Success(scored) && scored.iterations <= most
      && IteratedFrom(w0, c0, w, c, n + Rounds(4 * n + m, scored.iterations), scored.iterations)
    case Failure(error) =>
      Explained(error, expired, w0, c0, n + Rounds(4 * n + m, most)) || (error.kind == Integrity && spec == Failure(Integrity))
  }

  /** `n` units for the first score vector, then the loop. */
  method RunIterations<S(0)>(A: Arith<S>, layout: Layout<S>, plan: Plan<S>, ghost net: Network<S>,
                             ghost spec: Result<Converged<S>, FailureKind>, work: WorkCell, deadline: ExecutionDeadline)
    returns (r: Result<Converged<S>, ExecutionFailure>)
    requires deadline.Valid() && LaysOut(layout, net, |layout.teleport|) && net.t == plan.teleportProbability
    requires RunningAt(A, net, plan, layout.teleport, 0, A.zero, spec) && work.counts.iterations == 0
    modifies work, deadline, deadline.mono
    ensures r.Success? ==> deadline.Valid()
    ensures Iterated(spec, |layout.teleport|, |net.arcs|, plan.maxIterations, r, deadline.Expired(),
                     old(work.counts), old(deadline.completedUnits), work.counts, deadline.completedUnits)
  {
    hide ExecutionDeadline.Valid, ExecutionDeadline.Expired;
    var n := |layout.teleport|;
    hide LaysOut, RunningAt, Rounds;
    var built := BuildCountedGraphVec(n, i requires 0 <= i < n => layout.teleport[i], work, deadline);
    if built.Failure? {
      return Failure(built.error);
    }
    assert built.value[..] == layout.teleport;
    r := IterationLoop(A, layout, plan, built.value[..], net, spec, work, deadline);
  }

  // ---------- stage 5: the rankings ----------

  lemma OfferStep<S>(ids: seq<string>, scores: seq<S>, prefix: string, i: nat)
    requires i < |ids| == |scores|
    ensures var before, after := Offers(ids, scores, prefix, i), Offers(ids, scores, prefix, i + 1);
      after == if StartsWith(ids[i], prefix) then before + [Key(scores[i], ids[i])] else before
  {
  }

  lemma RetainedStep<S(!new)>(leq: (S, S) -> bool, offers: seq<Key<S>>, x: Key<S>, limit: nat)
    ensures Retained(leq, offers + [x], limit) == Take(Insert(ByRank(leq), x, Retained(leq, offers, limit)), limit)
  {
    assert (offers + [x])[..|offers|] == offers;
  }

  /** Offers one scored node to the heap of its kind. */
  method OfferNode<S(!new)>(A: Arith<S>, heap: BinaryHeap<S, ()>, ids: seq<string>, scores: seq<S>, prefix: string,
                            limit: nat, i: nat)
    requires TotalOrder(A.leq) && heap.leq == A.leq && |heap.items| <= limit
    requires i < |ids| == |scores| && SortedKeys(A.leq, heap.items) == Retained(A.leq, Offers(ids, scores, prefix, i), limit)
    modifies heap
    ensures |heap.items| <= limit
    ensures SortedKeys(A.leq, heap.items) == Retained(A.leq, Offers(ids, scores, prefix, i + 1), limit)
  {
    OfferStep(ids, scores, prefix, i);
    if StartsWith(ids[i], prefix) {
      RetainedStep(A.leq, Offers(ids, scores, prefix, i), Key(scores[i], ids[i]), limit);
      heap.Retain(ids[i], scores[i], (), limit);
    }
  }

  /** `bounded_rank_heap`: an empty heap, with its reservation guarded. */
  method BoundedRankHeap<S(!new)>(leq: (S, S) -> bool, work: WorkCell, deadline: ExecutionDeadline)
    returns (r: Result<BinaryHeap<S, ()>, ExecutionFailure>)
    requires deadline.Valid()
    modifies deadline, deadline.mono
    ensures r.Success? ==> fresh(r.value) && r.value.leq == leq && r.value.items == [] && deadline.Valid()
    ensures deadline.completedUnits == old(deadline.completedUnits)
    ensures r.Failure? ==> TimedOut(r.error, deadline.Expired())
  {
    var guarded := GuardReservation(work, deadline);
    if guarded.Fail? {
      return Failure(guarded.error);
    }
    var heap := new BinaryHeap<S, ()>(leq);
    return Success(heap);
  }

  method RankNodes<S(!new)>(A: Arith<S>, ids: seq<string>, scores: seq<S>, passageLimit: nat, factLimit: nat,
                            work: WorkCell, deadline: ExecutionDeadline)
    returns (r: Result<(seq<Key<S>>, seq<Key<S>>), ExecutionFailure>)
    requires deadline.Valid() && TotalOrder(A.leq) && |ids| == |scores|
    modifies work, deadline, deadline.mono
    ensures r.Success? ==> r.value.0 == Best(A, ids, scores, "passage:", passageLimit)
    ensures r.Success? ==> r.value.1 == Best(A, ids, scores, "fact:", factLimit)
    ensures r.Success? ==> Charged(work, deadline, old(work.counts), old(deadline.completedUnits), |ids|)
    ensures r.Failure? ==> Explained(r.error, deadline.Expired(), old(work.counts), old(deadline.completedUnits), |ids|)
  {
    hide ExecutionDeadline.Valid, ExecutionDeadline.Expired, TotalOrder, Best, Offers, SortedKeys, Retained;
    var passagesBuilt := BoundedRankHeap(A.leq, work, deadline);
    if passagesBuilt.Failure? {
      return Failure(passagesBuilt.error);
    }
    var factsBuilt := BoundedRankHeap(A.leq, work, deadline);
    if factsBuilt.Failure? {
      return Failure(factsBuilt.error);
    }
    var passages, facts := passagesBuilt.value, factsBuilt.value;
    EmptyHeap(A, ids, scores, "passage:", passageLimit);
    EmptyHeap(A, ids, scores, "fact:", factLimit);
    for i := 0 to |ids|
      invariant fresh(passages) && fresh(facts) && passages != facts
      invariant passages.leq == A.leq && facts.leq == A.leq
      invariant |passages.items| <= passageLimit && |facts.items| <= factLimit
      invariant SortedKeys(A.leq, passages.items) == Retained(A.leq, Offers(ids, scores, "passage:", i), passageLimit)
      invariant SortedKeys(A.leq, facts.items) == Retained(A.leq, Offers(ids, scores, "fact:", i), factLimit)
      invariant Charged(work, deadline, old(work.counts), old(deadline.completedUnits), i)
    {
      PrefixesDiffer(ids[i]);
      if StartsWith(ids[i], "passage:") {
        OfferNode(A, passages, ids, scores, "passage:", passageLimit, i);
        OfferStep(ids, scores, "fact:", i);
      } else {
        OfferStep(ids, scores, "passage:", i);
        OfferNode(A, facts, ids, scores, "fact:", factLimit, i);
      }
      var accounted := AccountGraphScanUnit(work, deadline);
      if accounted.Fail? {
        return Failure(accounted.error);
      }
    }
    BestIsRetained(A, ids, scores, "passage:", passageLimit);
    BestIsRetained(A, ids, scores, "fact:", factLimit);
    var rankedPassages := passages.Finish();
    var rankedFacts := facts.Finish();
    return Success((Keys(rankedPassages), Keys(rankedFacts)));
  }

  lemma PrefixesDiffer(id: string)
    ensures !(StartsWith(id, "passage:") && StartsWith(id, "fact:"))
  {
    if StartsWith(id, "passage:") {
      assert id[0] == 'p';
    }
  }

  lemma EmptyHeap<S>(A: Arith<S>, ids: seq<string>, scores: seq<S>, prefix: string, limit: nat)
    requires |ids| == |scores|
    ensures SortedKeys<S, ()>(A.leq, []) == Retained(A.leq, Offers(ids, scores, prefix, 0), limit)
  {
    assert Keys<S, ()>([]) == [];
  }

  lemma BestIsRetained<S(!new)>(A: Arith<S>, ids: seq<string>, scores: seq<S>, prefix: string, limit: nat)
    requires TotalOrder(A.leq) && |ids| == |scores|
    ensures Best(A, ids, scores, prefix, limit) == Retained(A.leq, Offers(ids, scores, prefix, |ids|), limit)
  {
    RetainedIsBest(A.leq, Offers(ids, scores, prefix, |ids|), limit);
  }

  // ---------- the reconstruction, stages 1 to 3 ----------

  function ReconstructionCost(all: nat, n: nat, m: nat): nat {
    all + SortCost(m) + SortCost(n) + 4 * m + 11 * n + 1
  }

  /** The counters after the reconstruction of `m` of `all` edges over `n` endpoints. */
  ghost predicate Reconstructed(w: WorkCounts, c: nat, all: nat, n: nat, m: nat) {
    var units := ReconstructionCost(all, n, m);
    w == WorkCounts(0, 0, 0, n, m, units, 0) && c == units
  }

  /** With counters far below 64 bits, only the deadline explains a stop. */
  lemma OnlyTheDeadline(failure: ExecutionFailure, expired: bool, w: WorkCounts, c: nat, units: nat)
    requires Explained(failure, expired, w, c, units)
    requires w.graphScanUnits == c && c + units <= MAX_GRAPH_SCAN_UNITS
    ensures TimedOut(failure, expired)
  {
  }

  lemma EndpointsOfPermutation<S>(a: seq<Triple<S>>, b: seq<Triple<S>>)
    requires multiset(a) == multiset(b)
    ensures Endpoints(a) == Endpoints(b)
  {
    forall t ensures t in a <==> t in b {
      assert t in a <==> t in multiset(a);
      assert t in b <==> t in multiset(b);
    }
  }

  /** The catalogued counts are the sizes of the canonical graph. */
  lemma CanonicalSizes<S(!new)>(A: Arith<S>, values: seq<GraphEdge<S>>, corpusId: string, nodes: nat, edges: nat)
    requires TotalOrder(A.leq) && Catalogued(values, corpusId, nodes, edges)
    ensures var triples := Canonical(A, values, corpusId);
      && |triples| == edges <= |values|
      && |NodeIds(triples)| == nodes
      && Sorted((a, b) => TripleLeq(A.leq, a, b), triples)
  {
    var leq := (a: Triple<S>, b: Triple<S>) => TripleLeq(A.leq, a, b);
    var plain := Triples(OfCorpus(values, corpusId));
    TripleOrderIsTotal(A.leq);
    SortIsPermutation(leq, plain);
    SortIsSorted(leq, plain);
    EndpointsOfPermutation(plain, Canonical(A, values, corpusId));
    NodeIdsAreEndpoints(Canonical(A, values, corpusId));
    FilterShrinks((e: GraphEdge<S>) => e.corpusId == corpusId, values);
  }

  lemma {:induction false} FilterShrinks<T>(p: T -> bool, s: seq<T>)
    ensures |Filter(p, s)| <= |s|
  {
    if s != [] {
      FilterShrinks(p, s[1..]);
    }
  }

  /** The counters when the edges and the endpoints are in canonical order. */
  ghost predicate Prepared(w: WorkCounts, c: nat, all: nat, n: nat, m: nat) {
    var units := all + SortCost(m) + n + m + SortCost(n);
    w == WorkCounts(0, 0, 0, n, m, units, 0) && c == units
  }

  /** Edges and endpoints of the corpus in canonical order; both catalogue checks pass. */
  method PrepareGraph<S(0, !new)>(A: Arith<S>, values: seq<GraphEdge<S>>, corpusId: string, graphNodes: nat, graphEdges: nat,
                                  work: WorkCell, deadline: ExecutionDeadline)
    returns (r: Result<(seq<GraphEdge<S>>, seq<string>), ExecutionFailure>)
    requires deadline.Valid() && TotalOrder(A.leq) && Catalogued(values, corpusId, graphNodes, graphEdges)
    requires ReconstructionCost(|values|, graphNodes, graphEdges) <= MAX_GRAPH_SCAN_UNITS
    requires work.counts == NO_WORK && deadline.completedUnits == 0
    modifies work, deadline, deadline.mono
    ensures var triples := Canonical(A, values, corpusId);
      && (r.Success? ==> Triples(r.value.0) == triples && r.value.1 == NodeIds(triples))
      && (r.Success? ==> deadline.Valid())
      && (r.Success? ==> Prepared(work.counts, deadline.completedUnits, |values|, graphNodes, graphEdges))
      && (r.Failure? ==> TimedOut(r.error, deadline.Expired()))
  {
    hide ExecutionDeadline.Valid, ExecutionDeadline.Expired;
    CanonicalSizes(A, values, corpusId, graphNodes, graphEdges);
    ghost var m, n := graphEdges, graphNodes;
    assert |OfCorpus(values, corpusId)| == m;
    hide SortCost, Canonical, NodeIds, Sorted, TotalOrder, Explained, Catalogued, Triples, OfCorpus;
    var prepared := PrepareEdges(A, values, corpusId, graphEdges, work, deadline);
    if prepared.Failure? {
      OnlyTheDeadline(prepared.error, deadline.Expired(), NO_WORK, 0, |values| + SortCost(m));
      return Failure(prepared.error);
    }
    ghost var w, c := work.counts, deadline.completedUnits;
    var nodes := PrepareNodes(prepared.value, graphNodes, work, deadline);
    if nodes.Failure? {
      OnlyTheDeadline(nodes.error, deadline.Expired(), w, c, n + m + SortCost(n));
      return Failure(nodes.error);
    }
    return Success((prepared.value, nodes.value));
  }

  method Reconstruct<S(0, !new)>(A: Arith<S>, plan: Plan<S>, values: seq<GraphEdge<S>>, corpusId: string,
                                 graphNodes: nat, graphEdges: nat, work: WorkCell, deadline: ExecutionDeadline)
    returns (r: Result<(seq<string>, Layout<S>), ExecutionFailure>)
    requires deadline.Valid() && TotalOrder(A.leq) && Catalogued(values, corpusId, graphNodes, graphEdges)
    requires ReconstructionCost(|values|, graphNodes, graphEdges) <= MAX_GRAPH_SCAN_UNITS
    requires work.counts == NO_WORK && deadline.completedUnits == 0
    modifies work, deadline, deadline.mono
    ensures var triples := Canonical(A, values, corpusId);
      var net := NetworkOf(A, plan, triples);
      && (r.Success? ==> r.value.0 == NodeIds(triples) && |r.value.0| == graphNodes && |net.arcs| == graphEdges)
      && (r.Success? ==> LaysOut(r.value.1, net, graphNodes) && ArcsAccepted(A, net.arcs) && deadline.Valid())
      && (r.Success? ==> Reconstructed(work.counts, deadline.completedUnits, |values|, graphNodes, graphEdges))
      && (r.Failure? ==> TimedOut(r.error, deadline.Expired()) || (r.error.kind == Integrity && !ArcsAccepted(A, net.arcs)))
  {
    hide ExecutionDeadline.Valid, ExecutionDeadline.Expired;
    CanonicalSizes(A, values, corpusId, graphNodes, graphEdges);
    ghost var triples, m, n := Canonical(A, values, corpusId), graphEdges, graphNodes;
    assert |NetworkOf(A, plan, triples).arcs| == m;
    var prepared := PrepareGraph(A, values, corpusId, graphNodes, graphEdges, work, deadline);
    if prepared.Failure? {
      return Failure(prepared.error);
    }
    var (edges, ids) := prepared.value;
    assert |edges| == |Triples(edges)| == m;
    hide SortCost, Canonical, NetworkOf, NodeIds, Sorted, TotalOrder, LaysOut, ArcsAccepted, Explained, Catalogued, Triples;
    ghost var w, c := work.counts, deadline.completedUnits;
    var layout := BuildLayout(A, plan, edges, ids, work, deadline);
    if layout.Failure? {
      if layout.error.kind != Integrity || ArcsAccepted(A, NetworkOf(A, plan, triples).arcs) {
        OnlyTheDeadline(layout.error, deadline.Expired(), w, c, 10 * n + 3 * m + 1);
      }
      return Failure(layout.error);
    }
    return Success((ids, layout.value));
  }

  // ---------- scores and rankings, stages 4 and 5 ----------

  datatype Rankings<+S> = Rankings(scored: Converged<S>, passages: seq<Key<S>>, facts: seq<Key<S>>)

  /** The counters `left` units before the end of a request that takes `k` iterations. */
  ghost predicate Ranked(w: WorkCounts, c: nat, all: nat, n: nat, m: nat, k: nat, left: nat) {
    && left <= PprCost(all, n, m, k)
    && w == WorkCounts(0, 0, k, n, m, PprCost(all, n, m, k) - left, 0)
    && c == PprCost(all, n, m, k) - left
  }

  lemma RankedCost(all: nat, n: nat, m: nat, k: nat)
    ensures ReconstructionCost(all, n, m) + n + Rounds(4 * n + m, k) + n == PprCost(all, n, m, k)
  {
    RoundsClosed(4 * n + m, k);
  }

  /** After the iterations only the ranking pass is left to pay for. */
  lemma IterationsSpent<S>(spec: Result<Converged<S>, FailureKind>, all: nat, n: nat, m: nat, most: nat,
                           r: Result<Converged<S>, ExecutionFailure>, expired: bool, w0: WorkCounts, c0: nat,
                           w: WorkCounts, c: nat)
    requires Reconstructed(w0, c0, all, n, m) && PprCost(all, n, m, most) <= MAX_GRAPH_SCAN_UNITS
    requires Iterated(spec, n, m, most, r, expired, w0, c0, w, c)
    ensures r.Success? ==> spec == Success(r.value) && r.value.iterations <= most
    ensures r.Success? ==> Ranked(w, c, all, n, m, r.value.iterations, n) && c + n <= MAX_GRAPH_SCAN_UNITS
    ensures r.Failure? ==> TimedOut(r.error, expired) || (r.error.kind == Integrity && spec == Failure(Integrity))
  {
    RankedCost(all, n, m, most);
    if r.Success? {
      RankedCost(all, n, m, r.value.iterations);
      RoundsIncrease(4 * n + m, r.value.iterations, most);
    }
    hide PprCost, ReconstructionCost, Rounds;
  }

  method ScoreAndRank<S(0, !new)>(A: Arith<S>, plan: Plan<S>, ids: seq<string>, layout: Layout<S>, ghost triples: seq<Triple<S>>,
                                  ghost all: nat, work: WorkCell, deadline: ExecutionDeadline)
    returns (r: Result<Rankings<S>, ExecutionFailure>)
    requires deadline.Valid() && TotalOrder(A.leq) && ids == NodeIds(triples)
    requires ArcsAccepted(A, NetworkOf(A, plan, triples).arcs) && LaysOut(layout, NetworkOf(A, plan, triples), |ids|)
    requires PprCost(all, |ids|, |triples|, plan.maxIterations) <= MAX_GRAPH_SCAN_UNITS
    requires Reconstructed(work.counts, deadline.completedUnits, all, |ids|, |triples|)
    modifies work, deadline, deadline.mono
    ensures r.Success? ==> deadline.Valid() && RankedAs(A, plan, triples, r.value)
    ensures r.Success? ==> Ranked(work.counts, deadline.completedUnits, all, |ids|, |triples|, r.value.scored.iterations, 0)
    ensures r.Failure? ==> TimedOut(r.error, deadline.Expired())
                           || (r.error.kind == Integrity && Scores(A, plan, triples) == Failure(Integrity))
  {
    hide ExecutionDeadline.Valid, ExecutionDeadline.Expired;
    ghost var spec, n, m := Scores(A, plan, triples), |ids|, |triples|;
    StartsRunning(A, plan, triples, layout);
    ghost var w, c := work.counts, deadline.completedUnits;
    hide Reconstructed, PprCost, NetworkOf, NodeIds, Scores, LaysOut, RunningAt, ArcsAccepted, Best, TotalOrder,
      Explained, Iterated;
    var scored := RunIterations(A, layout, plan, NetworkOf(A, plan, triples), spec, work, deadline);
    IterationsSpent(spec, all, n, m, plan.maxIterations, scored, deadline.Expired(), w, c, work.counts, deadline.completedUnits);
    if scored.Failure? {
      return Failure(scored.error);
    }
    r := RankScored(A, plan, ids, scored.value, triples, all, work, deadline);
  }

  ghost predicate RankedAs<S>(A: Arith<S>, plan: Plan<S>, triples: seq<Triple<S>>, r: Rankings<S>) {
    && Scores(A, plan, triples) == Success(r.scored)
    && r.scored.iterations <= plan.maxIterations
    && r.passages == Best(A, NodeIds(triples), r.scored.scores, "passage:", plan.passageLimit)
    && r.facts == Best(A, NodeIds(triples), r.scored.scores, "fact:", plan.entityLimit)
  }

  /** The ranking pass pays the last `n` units. */
  method RankScored<S(!new)>(A: Arith<S>, plan: Plan<S>, ids: seq<string>, scored: Converged<S>, ghost triples: seq<Triple<S>>,
                             ghost all: nat, work: WorkCell, deadline: ExecutionDeadline)
    returns (r: Result<Rankings<S>, ExecutionFailure>)
    requires deadline.Valid() && TotalOrder(A.leq) && ids == NodeIds(triples)
    requires Scores(A, plan, triples) == Success(scored) && scored.iterations <= plan.maxIterations
    requires Ranked(work.counts, deadline.completedUnits, all, |ids|, |triples|, scored.iterations, |ids|)
    requires deadline.completedUnits + |ids| <= MAX_GRAPH_SCAN_UNITS
    modifies work, deadline, deadline.mono
    ensures r.Success? ==> deadline.Valid() && RankedAs(A, plan, triples, r.value) && r.value.scored == scored
    ensures r.Success? ==> Ranked(work.counts, deadline.completedUnits, all, |ids|, |triples|, scored.iterations, 0)
    ensures r.Failure? ==> TimedOut(r.error, deadline.Expired())
  {
    hide ExecutionDeadline.Valid, ExecutionDeadline.Expired;
    ghost var w, c := work.counts, deadline.completedUnits;
    hide PprCost, NodeIds, Scores, Best, TotalOrder, Explained;
    var ranked := RankNodes(A, ids, scored.scores, plan.passageLimit, plan.entityLimit, work, deadline);
    if ranked.Failure? {
      OnlyTheDeadline(ranked.error, deadline.Expired(), w, c, |ids|);
      return Failure(ranked.error);
    }
    return Success(Rankings(scored, ranked.value.0, ranked.value.1));
  }

  lemma StartsRunning<S>(A: Arith<S>, plan: Plan<S>, triples: seq<Triple<S>>, layout: Layout<S>)
    requires var net := NetworkOf(A, plan, triples);
      ArcsAccepted(A, net.arcs) && LaysOut(layout, net, |NodeIds(triples)|)
    ensures var net := NetworkOf(A, plan, triples);
      && RunningAt(A, net, plan, layout.teleport, 0, A.zero, Scores(A, plan, triples))
      && |layout.teleport| == |NodeIds(triples)| && |net.arcs| == |triples| && net.t == plan.teleportProbability
  {
  }

  // ---------- the whole request ----------

  /** `Best` returns at most `limit` ids, all of its own kind. */
  lemma BestOfKind<S(!new)>(A: Arith<S>, ids: seq<string>, scores: seq<S>, prefix: string, limit: nat)
    requires |ids| == |scores|
    ensures var best := Best(A, ids, scores, prefix, limit);
      |best| <= limit && AllStartWith(best, prefix)
  {
    hide Sort, Offers, ByRank, RankLeq;
    var offers := Offers(ids, scores, prefix, |ids|);
    var sorted := Sort(ByRank(A.leq), offers);
    OffersOfKind(ids, scores, prefix, |ids|);
    SortIsPermutation(ByRank(A.leq), offers);
    forall i | 0 <= i < |Take(sorted, limit)| ensures StartsWith(sorted[i].id, prefix) {
      assert sorted[i] in multiset(sorted);
      var k := MemberAt(offers, sorted[i]);
    }
  }

  lemma {:induction false} OffersOfKind<S>(ids: seq<string>, scores: seq<S>, prefix: string, j: nat)
    requires j <= |ids| == |scores|
    ensures AllStartWith(Offers(ids, scores, prefix, j), prefix)
  {
    if j > 0 {
      OffersOfKind(ids, scores, prefix, j - 1);
    }
  }

  /** A ranking with the stored objects of its passages and facts, rank by rank. */
  datatype Reply<+S> = Reply(answer: Answer<S>, passages: seq<Json>, facts: seq<Json>)

  /** What a request answers when no deadline intervenes: the ranking, with every stored object present and small enough. */
  function PprResult<S>(A: Arith<S>, plan: Plan<S>, triples: seq<Triple<S>>, store: Store): Result<Reply<S>, FailureKind> {
    var ranked := PprAnswer(A, plan, triples);
    if ranked.Failure? then Failure(ranked.error)
    else
      var passages := Attach(store, "passages", "passage:", ranked.value.passages, |ranked.value.passages|);
      if passages.Failure? then Failure(passages.error)
      else
        var facts := Attach(store, "facts", "fact:", ranked.value.facts, |ranked.value.facts|);
        if facts.Failure? then Failure(facts.error) else Success(Reply(ranked.value, passages.value, facts.value))
  }

  datatype Response<+S> = Response(reply: Reply<S>, work: WorkCounts)

  function AnswerOf<S>(r: Rankings<S>): Answer<S> {
    Answer(r.passages, r.facts, r.scored.iterations, r.scored.converged, r.scored.l1Delta)
  }

  lemma RankingsAnswer<S(!new)>(A: Arith<S>, plan: Plan<S>, triples: seq<Triple<S>>, r: Rankings<S>)
    requires triples != [] && RankedAs(A, plan, triples, r)
    ensures PprAnswer(A, plan, triples) == Success(AnswerOf(r))
    ensures |r.passages| <= plan.passageLimit && AllStartWith(r.passages, "passage:")
    ensures |r.facts| <= plan.entityLimit && AllStartWith(r.facts, "fact:")
  {
    BestOfKind(A, NodeIds(triples), r.scored.scores, "passage:", plan.passageLimit);
    BestOfKind(A, NodeIds(triples), r.scored.scores, "fact:", plan.entityLimit);
  }

  lemma ScoresFail<S>(A: Arith<S>, plan: Plan<S>, triples: seq<Triple<S>>, store: Store)
    requires triples != []
    requires !ArcsAccepted(A, NetworkOf(A, plan, triples).arcs) || Scores(A, plan, triples) == Failure(Integrity)
    ensures PprResult(A, plan, triples, store) == Failure(Integrity)
  {
  }

  /** The stored objects of both rankings, and the final work check, which never rejects. */
  method MaterializeBoth<S(!new)>(A: Arith<S>, plan: Plan<S>, store: Store, rankings: Rankings<S>, ghost triples: seq<Triple<S>>,
                                  ghost all: nat, ghost n: nat, work: WorkCell, deadline: ExecutionDeadline)
    returns (r: Result<Response<S>, ExecutionFailure>)
    requires deadline.Valid() && triples != [] && RankedAs(A, plan, triples, rankings)
    requires plan.passageLimit + plan.entityLimit <= MAX_COMBINED_OBJECTS
    requires Affordable(work.counts) && work.counts.objectsConsidered == 0
    requires Ranked(work.counts, deadline.completedUnits, all, n, |triples|, rankings.scored.iterations, 0)
    modifies work, deadline, deadline.mono
    ensures r.Success? ==> PprResult(A, plan, triples, store) == Success(r.value.reply)
    ensures r.Success? ==> r.value.work == FinalWork(all, n, |triples|, r.value.reply.answer) && CheckWork(r.value.work).Success?
    ensures r.Failure? ==> TimedOut(r.error, deadline.Expired()) || PprResult(A, plan, triples, store) == Failure(r.error.kind)
  {
    hide ExecutionDeadline.Valid, ExecutionDeadline.Expired;
    RankingsAnswer(A, plan, triples, rankings);
    hide PprAnswer, RankedAs, Attach, AllStartWith, PprCost;
    var passages := MaterializeAll(store, "passages", "passage:", rankings.passages, work, deadline);
    if passages.Failure? {
      return Failure(passages.error);
    }
    var facts := MaterializeAll(store, "facts", "fact:", rankings.facts, work, deadline);
    if facts.Failure? {
      return Failure(facts.error);
    }
    if CheckWork(work.counts).Failure? {
      assert false;
    }
    return Success(Response(Reply(AnswerOf(rankings), passages.value, facts.value), work.counts));
  }

  /** Admitted caps keep every counter of the run inside `CheckWork`'s limits. */
  lemma AdmittedIsAffordable<S>(plan: Plan<S>, all: nat, n: nat, m: nat, k: nat)
    requires Admitted(plan, n, m) && m <= all <= MAX_GRAPH_EDGES && k <= plan.maxIterations
    ensures PprCost(all, n, m, k) <= MAX_GRAPH_SCAN_UNITS
    ensures ReconstructionCost(all, n, m) <= PprCost(all, n, m, k)
    ensures plan.passageLimit + plan.entityLimit <= MAX_COMBINED_OBJECTS
  {
    CostFitsCap(all, n, m, k);
    RankedCost(all, n, m, k);
  }

  lemma EmptyCorpus<S(!new)>(A: Arith<S>, plan: Plan<S>, values: seq<GraphEdge<S>>, corpusId: string, nodes: nat, edges: nat,
                             store: Store)
    requires TotalOrder(A.leq) && Catalogued(values, corpusId, nodes, edges)
    ensures var triples := Canonical(A, values, corpusId);
      && (nodes == 0 <==> triples == []) && |triples| == edges <= |values| && |NodeIds(triples)| == nodes
      && (nodes == 0 ==> PprResult(A, plan, triples, store) == Success(Reply(Answer([], [], 0, true, A.zero), [], [])))
  {
    var triples := Canonical(A, values, corpusId);
    CanonicalSizes(A, values, corpusId, nodes, edges);
    NodeIdsAreEndpoints(triples);
    if triples != [] {
      assert triples[0] in triples;
      assert triples[0].source in Endpoints(triples);
    } else {
      assert Endpoints(triples) == {};
    }
  }

  /** The stages of an admitted request on a graph with at least one endpoint. */
  method ExecuteStages<S(0, !new)>(A: Arith<S>, plan: Plan<S>, values: seq<GraphEdge<S>>, corpusId: string,
                                   graphNodes: nat, graphEdges: nat, store: Store, deadline: ExecutionDeadline)
    returns (r: Result<Response<S>, ExecutionFailure>)
    requires deadline.Valid() && deadline.completedUnits == 0
    requires TotalOrder(A.leq) && Catalogued(values, corpusId, graphNodes, graphEdges)
    requires Admitted(plan, graphNodes, graphEdges) && graphNodes != 0
    modifies deadline, deadline.mono
    ensures var triples := Canonical(A, values, corpusId);
      && (r.Success? ==> PprResult(A, plan, triples, store) == Success(r.value.reply))
      && (r.Success? ==> r.value.work == FinalWork(|values|, graphNodes, graphEdges, r.value.reply.answer)
                         && CheckWork(r.value.work).Success?)
      && (r.Failure? ==> TimedOut(r.error, deadline.Expired()) || PprResult(A, plan, triples, store) == Failure(r.error.kind))
  {
    hide ExecutionDeadline.Valid, ExecutionDeadline.Expired;
    ghost var triples, all := Canonical(A, values, corpusId), |values|;
    EmptyCorpus(A, plan, values, corpusId, graphNodes, graphEdges, store);
    AdmittedIsAffordable(plan, all, graphNodes, graphEdges, plan.maxIterations);
    hide Canonical, NodeIds, NetworkOf, Scores, LaysOut, ArcsAccepted, PprResult, PprCost, ReconstructionCost, TotalOrder,
      Admitted, RankedAs, FinalWork, CheckWork;
    var work := new WorkCell();
    var endpointSet := GuardReservation(work, deadline);
    if endpointSet.Fail? {
      return Failure(endpointSet.error);
    }
    var idList := GuardReservation(work, deadline);
    if idList.Fail? {
      return Failure(idList.error);
    }
    var rebuilt := Reconstruct(A, plan, values, corpusId, graphNodes, graphEdges, work, deadline);
    if rebuilt.Failure? {
      if rebuilt.error.kind == Integrity {
        ScoresFail(A, plan, triples, store);
      }
      return Failure(rebuilt.error);
    }
    var ranked := ScoreAndRank(A, plan, rebuilt.value.0, rebuilt.value.1, triples, all, work, deadline);
    if ranked.Failure? {
      if ranked.error.kind == Integrity {
        ScoresFail(A, plan, triples, store);
      }
      return Failure(ranked.error);
    }
    RankedIsAffordable(A, plan, all, graphNodes, triples, ranked.value, work.counts, deadline.completedUnits);
    r := MaterializeBoth(A, plan, store, ranked.value, triples, all, graphNodes, work, deadline);
  }

  lemma RankedIsAffordable<S>(A: Arith<S>, plan: Plan<S>, all: nat, n: nat, triples: seq<Triple<S>>, r: Rankings<S>,
                              w: WorkCounts, c: nat)
    requires Admitted(plan, n, |triples|) && |triples| <= all <= MAX_GRAPH_EDGES && RankedAs(A, plan, triples, r)
    requires Ranked(w, c, all, n, |triples|, r.scored.iterations, 0)
    ensures Affordable(w) && w.objectsConsidered == 0
  {
    AdmittedIsAffordable(plan, all, n, |triples|, r.scored.iterations);
    hide PprCost, ReconstructionCost;
  }

  /** The response is what the specification says, for exactly the closed form of work, which the final check accepts. */
  ghost predicate Answers<S(!new)>(A: Arith<S>, plan: Plan<S>, values: seq<GraphEdge<S>>, corpusId: string,
                                   graphNodes: nat, graphEdges: nat, store: Store, r: Result<Response<S>, ExecutionFailure>) {
    match (PprResult(A, plan, Canonical(A, values, corpusId), store), r)
    case (Success(reply), Success(response)) =>
      && response == Response(reply, FinalWork(|values|, graphNodes, graphEdges, reply.answer))
      && CheckWork(response.work).Success?
    case (Failure(kind), Failure(error)) => error.kind == kind
    case _ => false
  }

  /**
    One ranking request over a catalogued state. It is refused outright exactly
    when the caps or the transient budget reject it; otherwise it either runs into
    its deadline, with the clock there, or answers as specified. A clock that stays
    below the deadline over the request's readings always gets its answer.
   */
  method ExecutePpr<S(0, !new)>(A: Arith<S>, plan: Plan<S>, values: seq<GraphEdge<S>>, corpusId: string,
                                graphNodes: nat, graphEdges: nat, store: Store, deadline: ExecutionDeadline)
    returns (r: Result<Response<S>, ExecutionFailure>)
    requires deadline.Valid() && deadline.completedUnits == 0
    requires TotalOrder(A.leq) && Catalogued(values, corpusId, graphNodes, graphEdges)
    modifies deadline, deadline.mono
    ensures !Admitted(plan, graphNodes, graphEdges) ==> r.Failure? && r.error == ExecutionFailure(ResourceLimit, NO_WORK)
    ensures Admitted(plan, graphNodes, graphEdges) ==>
              || (r.Failure? && TimedOut(r.error, deadline.Expired()))
              || Answers(A, plan, values, corpusId, graphNodes, graphEdges, store, r)
    ensures Admitted(plan, graphNodes, graphEdges) && deadline.InTime(deadline.calls) ==>
              Answers(A, plan, values, corpusId, graphNodes, graphEdges, store, r)
  {
    if !Admitted(plan, graphNodes, graphEdges) {
      return Failure(ExecutionFailure(ResourceLimit, NO_WORK));
    }
    var guarded := deadline.GuardNow();
    if guarded.Fail? {
      return Failure(ExecutionFailure(KindOf(guarded.error), NO_WORK));
    }
    EmptyCorpus(A, plan, values, corpusId, graphNodes, graphEdges, store);
    hide Canonical, PprResult, TotalOrder, Admitted, NodeIds;
    if graphNodes == 0 {
      return Success(Response(Reply(Answer([], [], 0, true, A.zero), [], []), NO_WORK));
    }
    r := ExecuteStages(A, plan, values, corpusId, graphNodes, graphEdges, store, deadline);
  }
}
