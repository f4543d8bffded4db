/**
  Order independence and exact cost of a ranking request. Nothing here assumes
  that the score type's addition is associative or commutative: results agree
  because the canonical order fixes every addition.
 */
module PprOrder {
  import opened Accounting
  import opened Text
  import opened StableSort
  import opened CountedSort
  import opened Graph
  import opened PprSpec

  // ---------- order independence ----------

  predicate SeedTotalLeq<S>(leq: (S, S) -> bool, a: (string, S), b: (string, S)) {
    IdLess(a.0, b.0) || (a.0 == b.0 && leq(a.1, b.1))
  }

  lemma SeedOrderIsTotal<S(!new)>(leq: (S, S) -> bool)
    requires TotalOrder(leq)
    ensures TotalOrder((a, b) => SeedTotalLeq(leq, a, b))
  {
    IdOrderIsTotal();
    var r := (a: (string, S), b: (string, S)) => SeedTotalLeq(leq, a, b);
    forall a, b ensures r(a, b) || r(b, a) {
      assert IdLeq(a.0, b.0) || IdLeq(b.0, a.0);
      assert leq(a.1, b.1) || leq(b.1, a.1);
    }
    forall a, b, c | r(a, b) && r(b, c) ensures r(a, c) {
      LessTransitive(a.0, b.0, c.0);
    }
    forall a, b | r(a, b) && r(b, a) ensures a == b {
      LessAsymmetric(a.0, b.0);
    }
  }

  lemma SeedPreorder<S(!new)>()
    ensures TotalPreorder<(string, S)>(SeedLeq)
  {
    IdOrderIsTotal();
    forall a: (string, S), b ensures SeedLeq(a, b) || SeedLeq(b, a) {
      assert IdLeq(a.0, b.0) || IdLeq(b.0, a.0);
    }
    forall a: (string, S), b, c | SeedLeq(a, b) && SeedLeq(b, c) ensures SeedLeq(a, c) {
    }
  }

  lemma SortedSeedsAreStrict<S(!new)>(leq: (S, S) -> bool, seeds: seq<(string, S)>)
    requires TotalOrder(leq) && DistinctIds(seeds)
    ensures Sorted((a, b) => SeedTotalLeq(leq, a, b), Sort(SeedLeq, seeds))
  {
    var r := Sort(SeedLeq, seeds);
    SortedSeeds(seeds);
    SeedPreorder<S>();
    SortIsSorted(SeedLeq, seeds);
    IdOrderIsTotal();
    forall i, j | 0 <= i < j < |r| ensures SeedTotalLeq(leq, r[i], r[j]) {
      assert SeedLeq(r[i], r[j]);
    }
  }

  /** Distinct seeds are placed in the same order however the request lists them. */
  lemma SeedOrderIrrelevant<S(!new)>(leq: (S, S) -> bool, a: seq<(string, S)>, b: seq<(string, S)>)
    requires TotalOrder(leq) && DistinctIds(a) && DistinctIds(b) && multiset(a) == multiset(b)
    ensures Sort(SeedLeq, a) == Sort(SeedLeq, b)
  {
    var strict := (x, y) => SeedTotalLeq(leq, x, y);
    SeedOrderIsTotal(leq);
    SortedSeedsAreStrict(leq, a);
    SortedSeedsAreStrict(leq, b);
    SortIsPermutation(SeedLeq, a);
    SortIsPermutation(SeedLeq, b);
    SortedIsUnique(strict, Sort(SeedLeq, a), Sort(SeedLeq, b));
  }

  /** The canonical triples depend only on the multiset of the corpus's triples. */
  lemma CanonicalIgnoresOrder<S(!new)>(A: Arith<S>, first: seq<GraphEdge<S>>, second: seq<GraphEdge<S>>, corpusId: string)
    requires TotalOrder(A.leq)
    requires multiset(Triples(OfCorpus(first, corpusId))) == multiset(Triples(OfCorpus(second, corpusId)))
    ensures Canonical(A, first, corpusId) == Canonical(A, second, corpusId)
  {
    TripleOrderIsTotal(A.leq);
    SortIgnoresInputOrder((a, b) => TripleLeq(A.leq, a, b),
      Triples(OfCorpus(first, corpusId)), Triples(OfCorpus(second, corpusId)));
  }

  /** Scan units of a run over `m` of `all` edges and `n` endpoints that takes `k` iterations. */
  function PprCost(all: nat, n: nat, m: nat, k: nat): nat {
    all + SortCost(m) + SortCost(n) + 4 * m + 13 * n + 1 + k * (4 * n + m)
  }

  /** The reported work of an answered request over `m` of `all` edges and `n` endpoints. */
  function FinalWork<S>(all: nat, n: nat, m: nat, answer: Answer<S>): WorkCounts {
    if m == 0 then NO_WORK
    else WorkCounts(0, 0, answer.iterations, n, m, PprCost(all, n, m, answer.iterations), |answer.passages| + |answer.facts|)
  }

  /**
    Whatever order the edge map is iterated in and the seeds are listed in, the
    scores, the answer, the node and edge counts and every work counter agree.
   */
  lemma AnswerIgnoresOrder<S(!new)>(A: Arith<S>, plan: Plan<S>, seeds: seq<(string, S)>,
                                    first: seq<GraphEdge<S>>, second: seq<GraphEdge<S>>, corpusId: string)
    requires TotalOrder(A.leq)
    requires multiset(Triples(OfCorpus(first, corpusId))) == multiset(Triples(OfCorpus(second, corpusId)))
    requires DistinctIds(plan.seeds) && DistinctIds(seeds) && multiset(plan.seeds) == multiset(seeds)
    ensures var s, t := Canonical(A, first, corpusId), Canonical(A, second, corpusId);
      var answer := PprAnswer(A, plan, s);
      && Scores(A, plan, s) == Scores(A, plan.(seeds := seeds), t)
      && answer == PprAnswer(A, plan.(seeds := seeds), t)
      && NodeIds(s) == NodeIds(t) && |s| == |t|
      && (answer.Success? && |first| == |second| ==>
            FinalWork(|first|, |NodeIds(s)|, |s|, answer.value) == FinalWork(|second|, |NodeIds(t)|, |t|, answer.value))
  {
    CanonicalIgnoresOrder(A, first, second, corpusId);
    SeedOrderIrrelevant(A.leq, plan.seeds, seeds);
    var s := Canonical(A, first, corpusId);
    assert Teleport(A, NodeIds(s), plan.seeds) == Teleport(A, NodeIds(s), seeds);
    var net := NetworkOf(A, plan, s);
    assert net == NetworkOf(A, plan.(seeds := seeds), s);
    NetworkIsWellFormed(A, plan, s);
    IterateIgnoresSeeds(A, net, plan, seeds, net.teleport, 0, A.zero);
  }

  lemma {:induction false} IterateIgnoresSeeds<S>(A: Arith<S>, net: Network<S>, plan: Plan<S>, seeds: seq<(string, S)>,
                                                  scores: seq<S>, done: nat, l1: S)
    requires WellFormed(net, |scores|) && done <= plan.maxIterations
    ensures Iterate(A, net, plan, scores, done, l1) == Iterate(A, net, plan.(seeds := seeds), scores, done, l1)
    decreases plan.maxIterations - done
  {
    if done < plan.maxIterations {
      var next := Next(A, net, scores);
      IterateIgnoresSeeds(A, net, plan, seeds, next, done + 1, Delta(A, next, scores, |scores|));
    }
  }

  // ---------- cost ----------

  lemma MulMonotone(n: nat, a: nat, b: nat)
    requires a <= b
    ensures n * a <= n * b
  {
    assert n * b == n * a + n * (b - a);
  }

  lemma PowersOfTwo()
    ensures Pow2(20) == 1_048_576 && Pow2(21) == 2_097_152 && Pow2(22) == 4_194_304
  {
    assert Pow2(5) == 32;
    assert Pow2(10) == 1024;
    assert Pow2(15) == 32_768;
    assert Pow2(20) == 1_048_576;
  }

  lemma SortCostBound(n: nat, most: nat, passes: nat)
    requires n <= most && CeilLog2(most) == passes
    ensures SortCost(n) <= n * (1 + 2 * passes + (if passes > 0 then 1 else 0))
    ensures passes % 2 == 0 ==> SortCost(n) <= n * (1 + 2 * passes)
  {
    CeilLog2Monotone(n, most);
    var c := CeilLog2(n);
    assert 1 + 2 * c + c % 2 <= 1 + 2 * passes + passes % 2;
    MulMonotone(n, 1 + 2 * c + c % 2, 1 + 2 * passes + passes % 2);
    MulMonotone(n, 1 + 2 * passes + passes % 2, 1 + 2 * passes + (if passes > 0 then 1 else 0));
  }

  /** At most 44 node passes and 45 edge passes for the two sorts. */
  lemma SortPasses(n: nat, m: nat)
    requires n <= MAX_GRAPH_NODES && m <= MAX_GRAPH_EDGES
    ensures SortCost(n) <= 44 * n && SortCost(m) <= 45 * m
  {
    hide SortCost, Pow2, CeilLog2;
    PowersOfTwo();
    CeilLog2IsLeast(MAX_GRAPH_NODES, 21);
    CeilLog2IsLeast(MAX_GRAPH_EDGES, 22);
    SortCostBound(n, MAX_GRAPH_NODES, 21);
    SortCostBound(m, MAX_GRAPH_EDGES, 22);
  }

  /** Every admitted run fits the published constant, so the final cap check accepts it. */
  lemma CostFitsCap(all: nat, n: nat, m: nat, k: nat)
    requires m <= all <= MAX_GRAPH_EDGES && n <= MAX_GRAPH_NODES && k <= MAX_ITERATIONS
    ensures PprCost(all, n, m, k) <= MAX_GRAPH_SCAN_UNITS
  {
    SortPasses(n, m);
    MulMonotone(4 * n + m, k, MAX_ITERATIONS);
    assert (4 * n + m) * k == k * (4 * n + m);
  }

  /**
    The constant is the cost at the per-resource caps taken together. It is arithmetic
    about the caps alone: no request is admitted at both of them.
   */
  lemma CapIsReached()
    ensures PprCost(MAX_GRAPH_EDGES, MAX_GRAPH_NODES, MAX_GRAPH_EDGES, MAX_ITERATIONS) == MAX_GRAPH_SCAN_UNITS
  {
    PowersOfTwo();
    CeilLog2IsLeast(MAX_GRAPH_NODES, 21);
    CeilLog2IsLeast(MAX_GRAPH_EDGES, 22);
  }
}
