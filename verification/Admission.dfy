/**
  Admission of a ranking request: the caps, the transient budget, and how much
  work the largest admitted request costs.
 */
module Admission {
  import opened Accounting
  import opened CountedSort
  import opened PprSpec
  import opened PprOrder

  const MAX_SEEDS: nat := 512
  const MAX_RETURNED_PASSAGES: nat := 100
  const MAX_RETURNED_FACTS: nat := 100
  const MAX_TRANSIENT_BYTES: nat := 512 * 1024 * 1024

  /** `AllocationInput::checked_capacity_bytes` for a ranking request. */
  function TransientBytes(seeds: nat, combined: nat, nodes: nat, edges: nat): nat {
    seeds * 64 + combined * 64 + nodes * 3 * 8 + nodes * 192 + edges * 64 + combined * 64
    + combined * MAX_OBJECT_BYTES + MAX_RESPONSE_FRAME_BYTES
  }

  /** The caps and the transient budget of one request. */
  predicate Admitted<S>(plan: Plan<S>, nodes: nat, edges: nat) {
    && |plan.seeds| <= MAX_SEEDS
    && plan.maxIterations <= MAX_ITERATIONS
    && plan.passageLimit <= MAX_RETURNED_PASSAGES
    && plan.entityLimit <= MAX_RETURNED_FACTS
    && plan.passageLimit + plan.entityLimit <= MAX_COMBINED_OBJECTS
    && nodes <= MAX_GRAPH_NODES && edges <= MAX_GRAPH_EDGES
    && TransientBytes(|plan.seeds|, plan.passageLimit + plan.entityLimit, nodes, edges) <= MAX_TRANSIENT_BYTES
  }

  // ---------- the largest request ----------

  /** The transient budget refuses the largest node count together with the largest edge count. */
  lemma CapsRefusedTogether<S>(plan: Plan<S>)
    ensures !Admitted(plan, MAX_GRAPH_NODES, MAX_GRAPH_EDGES)
  {
  }

  /** Under the caps a request costs at most 569 units a node and 177 an edge, and one full scan. */
  lemma LinearCost(all: nat, n: nat, m: nat, k: nat)
    requires m <= all <= MAX_GRAPH_EDGES && n <= MAX_GRAPH_NODES && k <= MAX_ITERATIONS
    ensures PprCost(all, n, m, k) <= MAX_GRAPH_EDGES + 1 + 569 * n + 177 * m
  {
    hide SortCost;
    SortPasses(n, m);
    MulMonotone(4 * n + m, k, MAX_ITERATIONS);
    assert (4 * n + m) * k == k * (4 * n + m);
  }

  /** So no admitted request reaches the published constant. */
  lemma AdmittedStaysBelowCap<S>(plan: Plan<S>, all: nat, n: nat, m: nat, k: nat)
    requires Admitted(plan, n, m) && m <= all <= MAX_GRAPH_EDGES && k <= plan.maxIterations
    ensures PprCost(all, n, m, k) < MAX_GRAPH_SCAN_UNITS
  {
    hide PprCost;
    LinearCost(all, n, m, k);
  }

  const LARGEST_NODES: nat := 1_288_192
  const LARGEST_EDGES: nat := 3_999_996
  const LARGEST_COST: nat := 1_444_980_541

  /** The request contract asks for at least one passage and one entity; with those limits this is the most a request costs. */
  lemma LargestCostBounds<S>(plan: Plan<S>, all: nat, n: nat, m: nat, k: nat)
    requires Admitted(plan, n, m) && m <= all <= MAX_GRAPH_EDGES && k <= plan.maxIterations
    requires plan.passageLimit >= 1 && plan.entityLimit >= 1
    ensures PprCost(all, n, m, k) <= LARGEST_COST
  {
    hide PprCost;
    LinearCost(all, n, m, k);
    assert 216 * n + 64 * m <= 534_249_216;
    LargestTrade(n, m);
  }

  /** Edges cost more than nodes by the byte, and whole numbers leave room for one trade of four edges for two nodes. */
  lemma LargestTrade(n: nat, m: nat)
    requires m <= MAX_GRAPH_EDGES && 216 * n + 64 * m <= 534_249_216
    ensures MAX_GRAPH_EDGES + 1 + 569 * n + 177 * m <= LARGEST_COST
  {
    var i, j := n - 1_288_190, MAX_GRAPH_EDGES - m;
    assert 216 * i <= 176 + 64 * j;
    if i <= 0 {
    } else if i == 1 {
      assert j >= 1;
    } else if i == 2 {
      assert j >= 4;
    } else {
      assert 64 * (569 * i - 177 * j) <= 36_416 * i - 177 * (216 * i - 176);
    }
  }

  /** The bound is exact: at these sizes the request is admitted, with not a byte to spare. */
  lemma LargestCostIsReached<S>(plan: Plan<S>)
    requires plan.seeds == [] && plan.passageLimit == 1 && plan.entityLimit == 1 && plan.maxIterations == MAX_ITERATIONS
    ensures Admitted(plan, LARGEST_NODES, LARGEST_EDGES)
    ensures TransientBytes(|plan.seeds|, 2, LARGEST_NODES, LARGEST_EDGES) == MAX_TRANSIENT_BYTES
    ensures PprCost(MAX_GRAPH_EDGES, LARGEST_NODES, LARGEST_EDGES, MAX_ITERATIONS) == LARGEST_COST
  {
    hide CeilLog2, Pow2;
    PowersOfTwo();
    CeilLog2IsLeast(LARGEST_NODES, 21);
    CeilLog2IsLeast(LARGEST_EDGES, 22);
  }
}
