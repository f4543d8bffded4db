/**
  The teleport vector and the power iteration over the reconstructed graph. The
  two nested loops over sources and their segments visit the arcs in canonical
  order, so every floating-point addition happens where the specification says.
 */
module KernelIteration {
  import opened Wrappers
  import opened Deadline
  import opened Accounting
  import opened StableSort
  import opened Csr
  import opened PprSpec
  import opened KernelGraph

  // ---------- teleport ----------

  /** The seed loop, without charges: each hit overwrites its slot and adds to the sum. */
  method PlaceAllSeeds<S>(A: Arith<S>, ids: seq<string>, index: map<string, nat>, seeds: seq<(string, S)>, teleport: array<S>)
    returns (sum: S)
    requires Distinct(ids) && Indexes(index, ids) && teleport.Length == |ids|
    requires teleport[..] == Zeros(A, |ids|)
    modifies teleport
    ensures (teleport[..], sum) == PlaceSeeds(A, ids, seeds, |seeds|)
  {
    sum := A.zero;
    for j := 0 to |seeds|
      invariant (teleport[..], sum) == PlaceSeeds(A, ids, seeds, j)
    {
      IndexOfFinds(ids, seeds[j].0);
      ghost var before := teleport[..];
      if seeds[j].0 in index {
        var at := index[seeds[j].0];
        IndexOfUnique(ids, at);
        teleport[at] := seeds[j].1;
        assert teleport[..] == before[at := seeds[j].1];
        sum := (A.add)(sum, seeds[j].1);
      }
    }
  }

  method Normalize<S>(A: Arith<S>, teleport: array<S>, sum: S, work: WorkCell, deadline: ExecutionDeadline)
    returns (r: Outcome<ExecutionFailure>)
    requires deadline.Valid()
    modifies teleport, work, deadline, deadline.mono
    ensures r.Pass? ==> forall i :: 0 <= i < teleport.Length ==>
      teleport[i] == if (A.less)(A.zero, sum) then (A.div)(old(teleport[..])[i], sum)
                     else (A.div)(A.one, (A.ofNat)(teleport.Length))
    ensures r.Pass? ==> Charged(work, deadline, old(work.counts), old(deadline.completedUnits), teleport.Length)
    ensures r.Fail? ==> Explained(r.error, deadline.Expired(), old(work.counts), old(deadline.completedUnits), teleport.Length)
  {
    hide ExecutionDeadline.Valid, ExecutionDeadline.Expired;
    ghost var before := teleport[..];
    var positive := (A.less)(A.zero, sum);
    var uniform := (A.div)(A.one, (A.ofNat)(teleport.Length));
    for i := 0 to teleport.Length
      invariant forall k :: 0 <= k < i ==> teleport[k] == if positive then (A.div)(before[k], sum) else uniform
      invariant forall k :: i <= k < teleport.Length ==> teleport[k] == before[k]
      invariant Charged(work, deadline, old(work.counts), old(deadline.completedUnits), i)
    {
      teleport[i] := if positive then (A.div)(teleport[i], sum) else uniform;
      :- AccountGraphScanUnit(work, deadline);
    }
    return Pass;
  }

  method BuildTeleport<S(0)>(A: Arith<S>, ids: seq<string>, index: map<string, nat>, seeds: seq<(string, S)>,
                             work: WorkCell, deadline: ExecutionDeadline)
    returns (r: Result<seq<S>, ExecutionFailure>)
    requires deadline.Valid() && Distinct(ids) && Indexes(index, ids)
    modifies work, deadline, deadline.mono
    ensures r.Success? ==> r.value == Teleport(A, ids, seeds)
    ensures r.Success? ==> Charged(work, deadline, old(work.counts), old(deadline.completedUnits), 2 * |ids|)
    ensures r.Failure? ==> Explained(r.error, deadline.Expired(), old(work.counts), old(deadline.completedUnits), 2 * |ids|)
  {
    hide ExecutionDeadline.Valid, ExecutionDeadline.Expired;
    var built := BuildCountedGraphVec(|ids|, (i: nat) => A.zero, work, deadline);
    if built.Failure? {
      return Failure(built.error);
    }
    var teleport := built.value;
    assert teleport[..] == Zeros(A, |ids|);
    var sorted := Sort(SeedLeq, seeds);
    var sum := PlaceAllSeeds(A, ids, index, sorted, teleport);
    var normalized := Normalize(A, teleport, sum, work, deadline);
    if normalized.Fail? {
      return Failure(normalized.error);
    }
    assert teleport[..] == Teleport(A, ids, seeds);
    return Success(teleport[..]);
  }

  // ---------- one iteration ----------

  /** The frozen arrays of one request. */
  datatype Layout<+S> = Layout(
    offsets: seq<nat>,
    adjacency: seq<(nat, S)>,
    totals: seq<S>,
    damping: seq<S>,
    teleport: seq<S>)

  ghost predicate LaysOut<S>(layout: Layout<S>, net: Network<S>, n: nat) {
    && WellFormed(net, n) && SortedBySource(net.arcs)
    && layout.totals == net.totals && layout.damping == net.damping && layout.teleport == net.teleport
    && |layout.offsets| == n + 1 && |layout.adjacency| == |net.arcs|
    && (forall s: nat :: s <= n ==> layout.offsets[s] == Below(net.arcs, |net.arcs|, s))
    && (forall i :: 0 <= i < |net.arcs| ==> layout.adjacency[i] == Slot(net.arcs[i]))
  }

  /** The segment of one source, and who owns its slots. */
  lemma SegmentOf<S>(layout: Layout<S>, net: Network<S>, n: nat, s: nat)
    requires LaysOut(layout, net, n) && s < n
    ensures layout.offsets[s] <= layout.offsets[s + 1] <= |net.arcs|
    ensures forall i :: layout.offsets[s] <= i < layout.offsets[s + 1] ==>
      net.arcs[i].source == s && layout.adjacency[i] == (net.arcs[i].target, net.arcs[i].weight)
  {
    var m := |net.arcs|;
    BelowNext(net.arcs, m, s);
    BelowMonotone(net.arcs, m, s + 1, n);
    BelowEnds(net.arcs, m, n);
    forall i | layout.offsets[s] <= i < layout.offsets[s + 1] ensures net.arcs[i].source == s {
      SegmentOwner(net.arcs, n, s, i);
    }
  }

  lemma OffsetEnds<S>(layout: Layout<S>, net: Network<S>, n: nat)
    requires LaysOut(layout, net, n)
    ensures layout.offsets[0] == 0 && layout.offsets[n] == |net.arcs|
  {
    BelowEnds(net.arcs, |net.arcs|, n);
  }

  /** The totals of the sources of the first `j` arcs are usable. */
  predicate UsableUpTo<S>(A: Arith<S>, net: Network<S>, n: nat, j: nat)
    requires WellFormed(net, n) && j <= |net.arcs|
  {
    forall i :: 0 <= i < j ==>
      var total := net.totals[net.arcs[i].source];
      (A.finite)(total) && (A.less)(A.zero, total)
  }

  /** The accumulator holds what the first `i` arcs carry. */
  ghost predicate SpreadTo<S>(A: Arith<S>, net: Network<S>, scores: seq<S>, i: nat, accumulator: seq<S>) {
    WellFormed(net, |scores|) && i <= |net.arcs| && accumulator == Spread(A, net, scores, i)
  }

  /** One arc of the inner loop. */
  method SpreadArc<S>(A: Arith<S>, layout: Layout<S>, t: S, scores: seq<S>, next: array<S>, source: nat, i: nat,
                      ghost net: Network<S>)
    requires LaysOut(layout, net, |scores|) && net.t == t && next.Length == |scores|
    requires i < |net.arcs| && net.arcs[i].source == source
    requires SpreadTo(A, net, scores, i, next[..])
    modifies next
    ensures SpreadTo(A, net, scores, i + 1, next[..])
  {
    var (target, weight) := layout.adjacency[i];
    ghost var before := next[..];
    next[target] := (A.add)(next[target],
      (A.mul)(
        (A.mul)((A.mul)((A.sub)(A.one, t), scores[source]), (A.div)(weight, layout.totals[source])),
        layout.damping[target]));
    assert next[..] == before[target := (A.add)(before[target], Carried(A, net, scores, net.arcs[i]))];
  }

  /** The inner loop over the segment of one source. */
  method SpreadSegment<S>(A: Arith<S>, layout: Layout<S>, t: S, scores: seq<S>, next: array<S>,
                          source: nat, start: nat, end: nat,
                          ghost net: Network<S>, work: WorkCell, deadline: ExecutionDeadline)
    returns (r: Outcome<ExecutionFailure>)
    requires deadline.Valid() && LaysOut(layout, net, |scores|) && net.t == t && next.Length == |scores|
    requires start <= end <= |net.arcs| && forall i :: start <= i < end ==> net.arcs[i].source == source
    requires SpreadTo(A, net, scores, start, next[..])
    modifies next, work, deadline, deadline.mono
    ensures r.Pass? ==> SpreadTo(A, net, scores, end, next[..])
    ensures r.Pass? ==> Charged(work, deadline, old(work.counts), old(deadline.completedUnits), end - start)
    ensures r.Fail? ==> Explained(r.error, deadline.Expired(), old(work.counts), old(deadline.completedUnits), end - start)
  {
    hide ExecutionDeadline.Valid, ExecutionDeadline.Expired, LaysOut, SpreadTo;
    for i := start to end
      invariant SpreadTo(A, net, scores, i, next[..])
      invariant Charged(work, deadline, old(work.counts), old(deadline.completedUnits), i - start)
    {
      SpreadArc(A, layout, t, scores, next, source, i, net);
      :- AccountGraphScanUnit(work, deadline);
    }
    return Pass;
  }

  /** The outer loop before `source`: what is spread, that its totals were usable, and what it cost. */
  ghost predicate Spreading<S>(A: Arith<S>, layout: Layout<S>, net: Network<S>, scores: seq<S>, source: nat, next: array<S>,
                               work: WorkCell, deadline: ExecutionDeadline, w0: WorkCounts, c0: nat)
    reads next, work, deadline, deadline.mono
  {
    && source < |layout.offsets| && layout.offsets[source] <= |net.arcs|
    && SpreadTo(A, net, scores, layout.offsets[source], next[..])
    && UsableUpTo(A, net, |scores|, layout.offsets[source])
    && Charged(work, deadline, w0, c0, source + layout.offsets[source])
  }

  /** The outer loop body: the source's own unit, its total check, and its segment. */
  method SpreadSource<S>(A: Arith<S>, layout: Layout<S>, t: S, scores: seq<S>, next: array<S>, source: nat,
                         ghost net: Network<S>, work: WorkCell, deadline: ExecutionDeadline, ghost w0: WorkCounts, ghost c0: nat)
    returns (r: Outcome<ExecutionFailure>)
    requires LaysOut(layout, net, |scores|) && net.t == t && next.Length == |scores| && source < |scores|
    requires Spreading(A, layout, net, scores, source, next, work, deadline, w0, c0)
    modifies next, work, deadline, deadline.mono
    ensures r.Pass? ==> Spreading(A, layout, net, scores, source + 1, next, work, deadline, w0, c0)
    ensures r.Fail? ==> Explained(r.error, deadline.Expired(), w0, c0, |scores| + |net.arcs|)
                        || (r.error.kind == Integrity && WellFormed(net, |scores|) && !TotalsUsable(A, net, |scores|))
  {
    hide ExecutionDeadline.Valid, ExecutionDeadline.Expired;
    SegmentOf(layout, net, |scores|, source);
    var start, end := layout.offsets[source], layout.offsets[source + 1];
    :- AccountGraphScanUnit(work, deadline);
    if start == end {
      return Pass;
    }
    var total := layout.totals[source];
    if !(A.finite)(total) || !(A.less)(A.zero, total) {
      assert net.arcs[start].source == source;
      return Fail(ExecutionFailure(Integrity, work.counts));
    }
    r := SpreadSegment(A, layout, t, scores, next, source, start, end, net, work, deadline);
  }

  method SpreadAll<S>(A: Arith<S>, layout: Layout<S>, t: S, scores: seq<S>, next: array<S>,
                      ghost net: Network<S>, work: WorkCell, deadline: ExecutionDeadline)
    returns (r: Outcome<ExecutionFailure>)
    requires deadline.Valid() && LaysOut(layout, net, |scores|) && net.t == t && next.Length == |scores|
    requires next[..] == Zeros(A, |scores|)
    modifies next, work, deadline, deadline.mono
    ensures r.Pass? ==> SpreadTo(A, net, scores, |net.arcs|, next[..]) && TotalsUsable(A, net, |scores|)
    ensures r.Pass? ==> Charged(work, deadline, old(work.counts), old(deadline.completedUnits), |scores| + |net.arcs|)
    ensures r.Fail? ==> Explained(r.error, deadline.Expired(), old(work.counts), old(deadline.completedUnits),
      |scores| + |net.arcs|)
                        || (r.error.kind == Integrity && WellFormed(net, |scores|) && !TotalsUsable(A, net, |scores|))
  {
    ghost var w0, c0 := work.counts, deadline.completedUnits;
    OffsetEnds(layout, net, |scores|);
    assert Spreading(A, layout, net, scores, 0, next, work, deadline, w0, c0);
    hide LaysOut, Spreading, Explained, WellFormed, TotalsUsable;
    for source := 0 to |scores|
      invariant Spreading(A, layout, net, scores, source, next, work, deadline, w0, c0)
    {
      :- SpreadSource(A, layout, t, scores, next, source, net, work, deadline, w0, c0);
    }
    AllSpread(A, layout, net, scores, next, work, deadline, w0, c0);
    return Pass;
  }

  lemma AllSpread<S>(A: Arith<S>, layout: Layout<S>, net: Network<S>, scores: seq<S>, next: array<S>,
                     work: WorkCell, deadline: ExecutionDeadline, w0: WorkCounts, c0: nat)
    requires LaysOut(layout, net, |scores|)
    requires Spreading(A, layout, net, scores, |scores|, next, work, deadline, w0, c0)
    ensures SpreadTo(A, net, scores, |net.arcs|, next[..])
    ensures WellFormed(net, |scores|) && TotalsUsable(A, net, |scores|)
    ensures Charged(work, deadline, w0, c0, |scores| + |net.arcs|)
  {
    OffsetEnds(layout, net, |scores|);
  }

  /** The teleport pass: turns the accumulator into the next score vector. */
  method AddTeleport<S>(A: Arith<S>, t: S, teleport: seq<S>, next: array<S>, work: WorkCell, deadline: ExecutionDeadline)
    returns (r: Outcome<ExecutionFailure>)
    requires deadline.Valid() && next.Length == |teleport|
    modifies next, work, deadline, deadline.mono
    ensures r.Pass? ==> forall v :: 0 <= v < next.Length ==>
      next[v] == (A.add)(old(next[..])[v], (A.mul)(t, teleport[v]))
    ensures r.Pass? ==> Charged(work, deadline, old(work.counts), old(deadline.completedUnits), next.Length)
    ensures r.Fail? ==> Explained(r.error, deadline.Expired(), old(work.counts), old(deadline.completedUnits), next.Length)
  {
    hide ExecutionDeadline.Valid, ExecutionDeadline.Expired;
    ghost var before := next[..];
    for v := 0 to next.Length
      invariant forall k :: 0 <= k < v ==> next[k] == (A.add)(before[k], (A.mul)(t, teleport[k]))
      invariant forall k :: v <= k < next.Length ==> next[k] == before[k]
      invariant Charged(work, deadline, old(work.counts), old(deadline.completedUnits), v)
    {
      next[v] := (A.add)(next[v], (A.mul)(t, teleport[v]));
      :- AccountGraphScanUnit(work, deadline);
    }
    return Pass;
  }

  ghost predicate Unmeasurable<S>(A: Arith<S>, next: seq<S>, previous: seq<S>)
    requires |next| == |previous|
  {
    || (exists v :: 0 <= v < |next| && !(A.finite)(next[v]))
    || !(A.finite)(Delta(A, next, previous, |next|))
  }

  /** The first `v` values are finite and `delta` is their distance. */
  ghost predicate MeasuredTo<S>(A: Arith<S>, next: seq<S>, previous: seq<S>, v: nat, delta: S) {
    && v <= |next| == |previous|
    && delta == Delta(A, next, previous, v)
    && forall k :: 0 <= k < v ==> (A.finite)(next[k])
  }

  lemma MeasureStep<S>(A: Arith<S>, next: seq<S>, previous: seq<S>, v: nat, delta: S)
    requires MeasuredTo(A, next, previous, v, delta) && v < |next|
    ensures !(A.finite)(next[v]) ==> Unmeasurable(A, next, previous)
    ensures (A.finite)(next[v]) ==>
      MeasuredTo(A, next, previous, v + 1, (A.add)(delta, (A.abs)((A.sub)(next[v], previous[v]))))
  {
  }

  lemma MeasureEnd<S>(A: Arith<S>, next: seq<S>, previous: seq<S>, delta: S)
    requires MeasuredTo(A, next, previous, |next|, delta)
    ensures delta == Delta(A, next, previous, |next|)
    ensures Unmeasurable(A, next, previous) <==> !(A.finite)(delta)
  {
  }

  /** The distance pass: fails on a value that is not finite. */
  method MeasureDelta<S>(A: Arith<S>, next: seq<S>, previous: seq<S>, work: WorkCell, deadline: ExecutionDeadline)
    returns (r: Result<S, ExecutionFailure>)
    requires deadline.Valid() && |next| == |previous|
    modifies work, deadline, deadline.mono
    ensures r.Success? ==> r.value == Delta(A, next, previous, |next|)
    ensures r.Success? ==> !Unmeasurable(A, next, previous)
    ensures r.Success? ==> Charged(work, deadline, old(work.counts), old(deadline.completedUnits), |next|)
    ensures r.Failure? ==> Explained(r.error, deadline.Expired(), old(work.counts), old(deadline.completedUnits), |next|)
                           || (r.error.kind == Integrity && Unmeasurable(A, next, previous))
  {
    hide ExecutionDeadline.Valid, ExecutionDeadline.Expired;
    var delta := A.zero;
    assert MeasuredTo(A, next, previous, 0, delta);
    hide MeasuredTo, Unmeasurable, Delta;
    for v := 0 to |next|
      invariant MeasuredTo(A, next, previous, v, delta)
      invariant Charged(work, deadline, old(work.counts), old(deadline.completedUnits), v)
    {
      MeasureStep(A, next, previous, v, delta);
      if !(A.finite)(next[v]) {
        return Failure(ExecutionFailure(Integrity, work.counts));
      }
      delta := (A.add)(delta, (A.abs)((A.sub)(next[v], previous[v])));
      var accounted := AccountGraphScanUnit(work, deadline);
      if accounted.Fail? {
        return Failure(accounted.error);
      }
    }
    MeasureEnd(A, next, previous, delta);
    if !(A.finite)(delta) {
      return Failure(ExecutionFailure(Integrity, work.counts));
    }
    return Success(delta);
  }

  /** Whether the specification stops with an integrity failure at this iteration. */
  ghost predicate StepFails<S>(A: Arith<S>, net: Network<S>, scores: seq<S>)
    requires WellFormed(net, |scores|)
  {
    !TotalsUsable(A, net, |scores|) || Unmeasurable(A, Next(A, net, scores), scores)
  }

  /** What one iteration returns, and the counters around it: `4n + m` units exactly. */
  ghost predicate Stepped<S>(A: Arith<S>, net: Network<S>, scores: seq<S>, r: Result<(seq<S>, S), ExecutionFailure>,
                             expired: bool, w0: WorkCounts, c0: nat, w: WorkCounts, c: nat) {
    var round := 4 * |scores| + |net.arcs|;
    && WellFormed(net, |scores|)
    && match r
       case Success(step) =>
         && !StepFails(A, net, scores)
         && step.0 == Next(A, net, scores) && step.1 == Delta(A, step.0, scores, |scores|)
         && w == Scanned(w0, round) && c == c0 + round
       case Failure(error) =>
         Explained(error, expired, w0, c0, round) || (error.kind == Integrity && StepFails(A, net, scores))
  }

  /** One iteration charges exactly `4n + m` units. */
  method OneIteration<S(0)>(A: Arith<S>, layout: Layout<S>, t: S, scores: seq<S>, ghost net: Network<S>,
                            work: WorkCell, deadline: ExecutionDeadline)
    returns (r: Result<(seq<S>, S), ExecutionFailure>)
    requires deadline.Valid() && LaysOut(layout, net, |scores|) && net.t == t
    modifies work, deadline, deadline.mono
    ensures r.Success? ==> deadline.Valid()
    ensures Stepped(A, net, scores, r, deadline.Expired(), old(work.counts), old(deadline.completedUnits), work.counts,
      deadline.completedUnits)
  {
    hide ExecutionDeadline.Valid, ExecutionDeadline.Expired;
    var n := |scores|;
    var built := BuildCountedGraphVec(n, (i: nat) => A.zero, work, deadline);
    if built.Failure? {
      return Failure(built.error);
    }
    var next := built.value;
    assert next[..] == Zeros(A, n);
    var spread := SpreadAll(A, layout, t, scores, next, net, work, deadline);
    if spread.Fail? {
      return Failure(spread.error);
    }
    var added := AddTeleport(A, t, layout.teleport, next, work, deadline);
    if added.Fail? {
      return Failure(added.error);
    }
    assert next[..] == Next(A, net, scores);
    hide LaysOut, TotalsUsable, Spread, Next;
    var measured := MeasureDelta(A, next[..], scores, work, deadline);
    if measured.Failure? {
      return Failure(measured.error);
    }
    return Success((next[..], measured.value));
  }
}
