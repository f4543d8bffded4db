/**
  Work counters, the published caps, and the single accounting call that every
  graph loop makes. Costs are exact closed forms in the input sizes.
 */
module Accounting {
  import opened Wrappers
  import opened Deadline

  const MAX_VECTOR_COMPARISONS: nat := 1_500_000
  const MAX_FACTS_INSPECTED: nat := 1_500_000
  const MAX_GRAPH_NODES: nat := 1_500_000
  const MAX_GRAPH_EDGES: nat := 4_000_000
  const MAX_ITERATIONS: nat := 128
  const MAX_COMBINED_OBJECTS: nat := 128
  const MAX_OBJECT_BYTES: nat := 256 * 1024
  const MAX_RESPONSE_FRAME_BYTES: nat := 2 * 1024 * 1024
  const MAX_GRAPH_SCAN_UNITS: nat :=
    57 * MAX_GRAPH_NODES + 50 * MAX_GRAPH_EDGES + MAX_ITERATIONS * (4 * MAX_GRAPH_NODES + MAX_GRAPH_EDGES) + 1

  datatype WorkCounts = WorkCounts(
    vectorComparisons: nat,
    factsInspected: nat,
    iterations: nat,
    nodesInitialized: nat,
    edgesVisited: nat,
    graphScanUnits: nat,
    objectsConsidered: nat)

  const NO_WORK := WorkCounts(0, 0, 0, 0, 0, 0, 0)

  /** `WorkCounts::check`. */
  function CheckWork(w: WorkCounts): Result<nat, FailureKind> {
    if w.vectorComparisons > MAX_VECTOR_COMPARISONS
      || w.factsInspected > MAX_FACTS_INSPECTED
      || w.iterations > MAX_ITERATIONS
      || w.nodesInitialized > MAX_GRAPH_NODES
      || w.edgesVisited > MAX_GRAPH_EDGES
      || w.graphScanUnits > MAX_GRAPH_SCAN_UNITS
      || w.objectsConsidered > MAX_COMBINED_OBJECTS
    then Failure(ResourceLimit)
    else
      var total := w.vectorComparisons + w.factsInspected + w.graphScanUnits + w.objectsConsidered;
      if total > U64_MAX then Failure(ResourceLimit) else Success(total)
  }

  /** The published caps as they stand, and the count of the work: behind the caps the 64-bit check of the sum never fires. */
  lemma CheckWorkMeans(w: WorkCounts)
    ensures var within := w.vectorComparisons <= 1_500_000 && w.factsInspected <= 1_500_000 && w.iterations <= 128
        && w.nodesInitialized <= 1_500_000 && w.edgesVisited <= 4_000_000 && w.graphScanUnits <= 1_565_500_001
        && w.objectsConsidered <= 128;
      CheckWork(w) == if within then Success(w.vectorComparisons + w.factsInspected + w.graphScanUnits + w.objectsConsidered)
                      else Failure(ResourceLimit)
  {
  }

  datatype ExecutionFailure = ExecutionFailure(kind: FailureKind, work: WorkCounts)

  /** The request's `&mut WorkCounts`. */
  class WorkCell {
    var counts: WorkCounts

    constructor ()
      ensures counts == NO_WORK
    {
      counts := NO_WORK;
    }
  }

  function Scanned(w: WorkCounts, units: nat): WorkCounts {
    w.(graphScanUnits := w.graphScanUnits + units)
  }

  /** Whether `units` more scan units fit both 64-bit counters. */
  predicate Fits(w: WorkCounts, completed: nat, units: nat) {
    w.graphScanUnits + units <= U64_MAX && completed + units <= U64_MAX
  }

  /** A stop at the deadline; `expired` says that the clock has reached it. */
  predicate TimedOut(failure: ExecutionFailure, expired: bool) {
    failure.kind == DeadlineFailure && expired
  }

  /** A stop that the clock or the given amount of work explains: the deadline, or a counter that would overflow. */
  predicate Explained(failure: ExecutionFailure, expired: bool, w: WorkCounts, completed: nat, units: nat) {
    TimedOut(failure, expired) || !Fits(w, completed, units)
  }

  /** The accountant is ready, both counters moved by exactly `units`, and no other counter moved. */
  ghost predicate Charged(work: WorkCell, deadline: ExecutionDeadline, w0: WorkCounts, c0: nat, units: nat)
    reads work, deadline, deadline.mono
  {
    && deadline.Valid()
    && work.counts == Scanned(w0, units)
    && deadline.completedUnits == c0 + units
  }

  method AccountGraphScanUnit(work: WorkCell, deadline: ExecutionDeadline)
    returns (r: Outcome<ExecutionFailure>)
    requires deadline.Valid()
    modifies work, deadline, deadline.mono
    ensures r.Pass? ==> Charged(work, deadline, old(work.counts), old(deadline.completedUnits), 1)
    ensures r.Fail? ==> Explained(r.error, deadline.Expired(), old(work.counts), old(deadline.completedUnits), 1)
  {
    if work.counts.graphScanUnits + 1 > U64_MAX {
      return Fail(ExecutionFailure(ResourceLimit, work.counts));
    }
    work.counts := Scanned(work.counts, 1);
    var advanced := deadline.AdvanceBy(1);
    if advanced.Fail? {
      return Fail(ExecutionFailure(KindOf(advanced.error), work.counts));
    }
    return Pass;
  }

  method GuardAllocation(work: WorkCell, deadline: ExecutionDeadline)
    returns (r: Outcome<ExecutionFailure>)
    requires deadline.Valid()
    modifies deadline, deadline.mono
    ensures r.Pass? ==> deadline.Valid()
    ensures deadline.completedUnits == old(deadline.completedUnits)
    ensures r.Fail? ==> TimedOut(r.error, deadline.Expired())
  {
    var guarded := deadline.GuardNow();
    if guarded.Fail? {
      return Fail(ExecutionFailure(KindOf(guarded.error), work.counts));
    }
    return Pass;
  }

  /** The checks before and after a container's reservation. */
  method GuardReservation(work: WorkCell, deadline: ExecutionDeadline)
    returns (r: Outcome<ExecutionFailure>)
    requires deadline.Valid()
    modifies deadline, deadline.mono
    ensures r.Pass? ==> deadline.Valid()
    ensures deadline.completedUnits == old(deadline.completedUnits)
    ensures r.Fail? ==> TimedOut(r.error, deadline.Expired())
  {
    r := GuardAllocation(work, deadline);
    if r.Pass? {
      r := GuardAllocation(work, deadline);
    }
  }

  /** An array behind its reservation's checks. */
  method NewGuardedArray<T(0)>(len: nat, work: WorkCell, deadline: ExecutionDeadline)
    returns (r: Result<array<T>, ExecutionFailure>)
    requires deadline.Valid()
    modifies deadline, deadline.mono
    ensures r.Success? ==> fresh(r.value) && r.value.Length == len && deadline.Valid()
    ensures deadline.completedUnits == old(deadline.completedUnits)
    ensures r.Failure? ==> TimedOut(r.error, deadline.Expired())
  {
    var guarded := GuardAllocation(work, deadline);
    if guarded.Fail? {
      return Failure(guarded.error);
    }
    var values := new T[len];
    guarded := GuardAllocation(work, deadline);
    if guarded.Fail? {
      return Failure(guarded.error);
    }
    return Success(values);
  }

  /** `build_counted_graph_vec` for a closure without state: one unit per element. */
  method BuildCountedGraphVec<T(0)>(len: nat, build: nat --> T, work: WorkCell, deadline: ExecutionDeadline)
    returns (r: Result<array<T>, ExecutionFailure>)
    requires deadline.Valid()
    requires forall i: nat :: i < len ==> build.requires(i)
    modifies work, deadline, deadline.mono
    ensures r.Success? ==> fresh(r.value) && r.value.Length == len
    ensures r.Success? ==> forall i: nat :: i < len ==> r.value[i] == build(i)
    ensures r.Success? ==> Charged(work, deadline, old(work.counts), old(deadline.completedUnits), len)
    ensures r.Failure? ==> Explained(r.error, deadline.Expired(), old(work.counts), old(deadline.completedUnits), len)
  {
    hide ExecutionDeadline.Valid, ExecutionDeadline.Expired;
    var values :- NewGuardedArray(len, work, deadline);
    for i := 0 to len
      invariant Charged(work, deadline, old(work.counts), old(deadline.completedUnits), i)
      invariant forall k: nat :: k < i ==> values[k] == build(k)
    {
      values[i] := build(i);
      var accounted := AccountGraphScanUnit(work, deadline);
      if accounted.Fail? {
        return Failure(accounted.error);
      }
    }
    return Success(values);
  }
}
