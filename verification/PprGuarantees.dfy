/** What a whole ranking run over exact reals guarantees: geometric convergence and a mass of at most one. */
module PprGuarantees {
  import opened StableSort
  import opened Graph
  import opened Csr
  import opened PprSpec
  import opened PprReal

  // ---------- the run as repeated steps ----------

  /** The score vector after `k` steps. */
  function Power<S>(A: Arith<S>, net: Network<S>, start: seq<S>, k: nat): (r: seq<S>)
    requires WellFormed(net, |start|)
    ensures |r| == |start|
  {
    if k == 0 then start else Next(A, net, Power(A, net, start, k - 1))
  }

  /** The distance the k-th step moved, k >= 1. */
  function StepDelta<S>(A: Arith<S>, net: Network<S>, start: seq<S>, k: nat): S
    requires WellFormed(net, |start|) && k > 0
  {
    Delta(A, Power(A, net, start, k), Power(A, net, start, k - 1), |start|)
  }

  /** The loop stops after the first step that moves less than epsilon, or at the iteration limit. */
  lemma {:induction false} IterateStops<S>(A: Arith<S>, net: Network<S>, plan: Plan<S>, start: seq<S>, done: nat, l1: S)
    requires WellFormed(net, |start|) && done <= plan.maxIterations
    requires Iterate(A, net, plan, Power(A, net, start, done), done, l1).Success?
    ensures var c := Iterate(A, net, plan, Power(A, net, start, done), done, l1).value;
      && done <= c.iterations <= plan.maxIterations
      && c.scores == Power(A, net, start, c.iterations)
      && c.l1Delta == (if c.iterations == done then l1 else StepDelta(A, net, start, c.iterations))
      && (c.converged ==> c.iterations > done && (A.less)(c.l1Delta, plan.convergenceEpsilon))
      && (!c.converged ==> c.iterations == plan.maxIterations)
      && (forall k :: done < k < c.iterations ==> !(A.less)(StepDelta(A, net, start, k), plan.convergenceEpsilon))
      && (!c.converged && c.iterations > done ==> !(A.less)(c.l1Delta, plan.convergenceEpsilon))
    decreases plan.maxIterations - done
  {
    hide Next, Delta, TotalsUsable;
    if done < plan.maxIterations {
      var scores := Power(A, net, start, done);
      var next := Next(A, net, scores);
      var delta := Delta(A, next, scores, |scores|);
      assert next == Power(A, net, start, done + 1) && delta == StepDelta(A, net, start, done + 1);
      if !(A.less)(delta, plan.convergenceEpsilon) {
        IterateStops(A, net, plan, start, done + 1, delta);
      }
    }
  }

  // ---------- geometric convergence ----------

  lemma {:induction false} DeltaIsGap(hub: nat -> real, x: seq<real>, y: seq<real>, j: nat)
    requires j <= |x| == |y|
    ensures Delta(Reals(hub), x, y, j) == Gap(x, y, j)
  {
    if j > 0 {
      DeltaIsGap(hub, x, y, j - 1);
    }
  }

  /** Successive steps move less and less: `d(k+1) <= (1-t) d(k)`, for any start, signed or not. */
  lemma DeltasContract(hub: nat -> real, net: Network<real>, start: seq<real>, k: nat)
    requires Usable(net, hub, |start|) && k > 0
    ensures StepDelta(Reals(hub), net, start, k + 1) <= (1.0 - net.t) * StepDelta(Reals(hub), net, start, k)
  {
    hide Next, Delta, Reals, Gap;
    var x, y := Power(Reals(hub), net, start, k), Power(Reals(hub), net, start, k - 1);
    NextContracts(hub, net, x, y);
    DeltaIsGap(hub, x, y, |start|);
    DeltaIsGap(hub, Power(Reals(hub), net, start, k + 1), x, |start|);
  }

  function PowR(b: real, k: nat): real {
    if k == 0 then 1.0 else b * PowR(b, k - 1)
  }

  lemma {:induction false} DeltasGeometric(hub: nat -> real, net: Network<real>, start: seq<real>, k: nat)
    requires Usable(net, hub, |start|) && k > 0
    ensures StepDelta(Reals(hub), net, start, k) <= PowR(1.0 - net.t, k - 1) * StepDelta(Reals(hub), net, start, 1)
  {
    hide StepDelta, Reals;
    if k > 1 {
      var q, first := 1.0 - net.t, StepDelta(Reals(hub), net, start, 1);
      DeltasGeometric(hub, net, start, k - 1);
      DeltasContract(hub, net, start, k - 1);
      ChainScaled(q, StepDelta(Reals(hub), net, start, k), StepDelta(Reals(hub), net, start, k - 1),
        PowR(q, k - 2), first);
      assert PowR(q, k - 1) == q * PowR(q, k - 2);
    }
  }

  lemma ChainScaled(q: real, d: real, before: real, p: real, first: real)
    requires 0.0 <= q && d <= q * before && before <= p * first
    ensures d <= (q * p) * first
  {
    ProductOrder(q, before, p * first);
    assert q * (p * first) == (q * p) * first;
  }

  /**
    Every run is bounded by the geometric series of its first step, so a limit
    large enough for the requested epsilon always ends in convergence.
   */
  lemma RunConverges(hub: nat -> real, net: Network<real>, plan: Plan<real>, start: seq<real>)
    requires Usable(net, hub, |start|) && plan.maxIterations > 0
    requires Iterate(Reals(hub), net, plan, start, 0, 0.0).Success?
    ensures var c := Iterate(Reals(hub), net, plan, start, 0, 0.0).value;
      var first := StepDelta(Reals(hub), net, start, 1);
      && c.iterations > 0
      && c.l1Delta <= PowR(1.0 - net.t, c.iterations - 1) * first
      && (PowR(1.0 - net.t, plan.maxIterations - 1) * first < plan.convergenceEpsilon ==> c.converged)
  {
    hide Iterate, StepDelta, PowR;
    assert Power(Reals(hub), net, start, 0) == start;
    IterateStops(Reals(hub), net, plan, start, 0, 0.0);
    var c := Iterate(Reals(hub), net, plan, start, 0, 0.0).value;
    DeltasGeometric(hub, net, start, c.iterations);
  }

  // ---------- the teleport vector is a distribution ----------

  predicate NonnegativeSeeds(seeds: seq<(string, real)>) {
    forall i :: 0 <= i < |seeds| ==> seeds[i].1 >= 0.0
  }

  /** Distinct seeds never overwrite each other, so the slots add up to the running sum. */
  lemma {:induction false} PlacedMass(hub: nat -> real, ids: seq<string>, seeds: seq<(string, real)>, j: nat)
    requires j <= |seeds| && Distinct(ids) && DistinctIds(seeds) && NonnegativeSeeds(seeds)
    ensures var (vector, sum) := PlaceSeeds(Reals(hub), ids, seeds, j);
      && Nonnegative(vector) && Mass(vector) == sum
      && (forall v :: 0 <= v < |ids| && vector[v] != 0.0 ==> exists i :: 0 <= i < j && seeds[i].0 == ids[v])
  {
    if j == 0 {
      ZeroSum(Zeros(Reals(hub), |ids|), |ids|);
    } else {
      PlacedMass(hub, ids, seeds, j - 1);
      var (vector, sum) := PlaceSeeds(Reals(hub), ids, seeds, j - 1);
      var at := IndexOf(ids, seeds[j - 1].0);
      IndexOfFinds(ids, seeds[j - 1].0);
      if at < |ids| {
        assert vector[at] == 0.0;
        SumUpdate(vector, at, seeds[j - 1].1, |ids|);
        var updated := vector[at := seeds[j - 1].1];
        forall v | 0 <= v < |ids| && updated[v] != 0.0 ensures exists i :: 0 <= i < j && seeds[i].0 == ids[v] {
          if v == at {
            assert seeds[j - 1].0 == ids[v];
          }
        }
      }
    }
  }

  lemma {:induction false} ScaledMass(s: seq<real>, r: seq<real>, c: real, j: nat)
    requires |s| == |r| && j <= |s| && c != 0.0
    requires forall i :: 0 <= i < |s| ==> r[i] == s[i] / c
    ensures Sum(r, j) == Sum(s, j) / c
  {
    if j > 0 {
      ScaledMass(s, r, c, j - 1);
      QuotientSum(Sum(s, j - 1), s[j - 1], c);
    }
  }

  lemma {:induction false} ConstantMass(s: seq<real>, c: real, j: nat)
    requires j <= |s| && forall i :: 0 <= i < |s| ==> s[i] == c
    ensures Sum(s, j) == (j as real) * c
  {
    if j > 0 {
      ConstantMass(s, c, j - 1);
      assert (j as real) == (j - 1) as real + 1.0;
      assert ((j - 1) as real + 1.0) * c == (j - 1) as real * c + c;
    }
  }

  lemma QuotientsNonnegative(a: real, c: real)
    requires a >= 0.0 && c > 0.0
    ensures a / c >= 0.0
  {
  }

  lemma SelfQuotient(c: real)
    requires c > 0.0
    ensures c / c == 1.0 && c * (1.0 / c) == 1.0
  {
  }

  lemma TeleportForm(hub: nat -> real, ids: seq<string>, seeds: seq<(string, real)>)
    requires ids != []
    ensures var sorted := Sort(SeedLeq, seeds);
      var (vector, sum) := PlaceSeeds(Reals(hub), ids, sorted, |sorted|);
      var r := Teleport(Reals(hub), ids, seeds);
      forall i :: 0 <= i < |ids| ==> r[i] == if 0.0 < sum then vector[i] / sum else 1.0 / (|ids| as real)
  {
    hide PlaceSeeds, Sort;
  }

  lemma NormalizedMass(s: seq<real>, r: seq<real>, c: real)
    requires |s| == |r| && c > 0.0 && Nonnegative(s) && Mass(s) == c
    requires forall i :: 0 <= i < |s| ==> r[i] == s[i] / c
    ensures Nonnegative(r) && Mass(r) == 1.0
  {
    forall i | 0 <= i < |s| ensures r[i] >= 0.0 {
      QuotientsNonnegative(s[i], c);
    }
    ScaledMass(s, r, c, |s|);
    SelfQuotient(c);
  }

  lemma UniformMass(r: seq<real>)
    requires r != [] && forall i :: 0 <= i < |r| ==> r[i] == 1.0 / (|r| as real)
    ensures Nonnegative(r) && Mass(r) == 1.0
  {
    var n := |r| as real;
    QuotientsNonnegative(1.0, n);
    ConstantMass(r, 1.0 / n, |r|);
    SelfQuotient(n);
  }

  /** For distinct nonnegative seeds the teleport vector is a probability distribution. */
  lemma TeleportIsDistribution(hub: nat -> real, ids: seq<string>, seeds: seq<(string, real)>)
    requires ids != [] && Distinct(ids) && DistinctIds(seeds) && NonnegativeSeeds(seeds)
    ensures var r := Teleport(Reals(hub), ids, seeds);
      Nonnegative(r) && Mass(r) == 1.0
  {
    hide PlaceSeeds, Sort, Teleport, Sum, Reals;
    var sorted := Sort(SeedLeq, seeds);
    SortedSeeds(seeds);
    SortIsPermutation(SeedLeq, seeds);
    assert NonnegativeSeeds(sorted) by {
      forall i | 0 <= i < |sorted| ensures sorted[i].1 >= 0.0 {
        assert sorted[i] in multiset(sorted);
        var k := MemberAt(seeds, sorted[i]);
      }
    }
    PlacedMass(hub, ids, sorted, |sorted|);
    TeleportForm(hub, ids, seeds);
    var (vector, sum) := PlaceSeeds(Reals(hub), ids, sorted, |sorted|);
    var r := Teleport(Reals(hub), ids, seeds);
    if 0.0 < sum {
      NormalizedMass(vector, r, sum);
    } else {
      UniformMass(r);
    }
  }

  // ---------- the whole request ----------

  predicate HubFactors(hub: nat -> real, degree: nat) {
    0.0 < hub(degree) <= 1.0
  }

  lemma RequestNetworkUsable(hub: nat -> real, plan: Plan<real>, triples: seq<Triple<real>>)
    requires forall degree: nat :: HubFactors(hub, degree)
    requires 0.0 <= plan.teleportProbability <= 1.0
    requires var net := NetworkOf(Reals(hub), plan, triples);
      && ArcsAccepted(Reals(hub), net.arcs)
      && WellFormed(net, |NodeIds(triples)|)
      && TotalsUsable(Reals(hub), net, |NodeIds(triples)|)
    ensures Usable(NetworkOf(Reals(hub), plan, triples), hub, |NodeIds(triples)|)
  {
    var net, n := NetworkOf(Reals(hub), plan, triples), |NodeIds(triples)|;
    hide WeightSum, NodeIds, Teleport, Arcs, OutCount, InCount;
    forall j | 0 <= j < |net.arcs| ensures net.arcs[j].weight >= 0.0 {
      assert ArcAccepted(Reals(hub), net.arcs, j);
    }
    forall v | 0 <= v < n ensures 0.0 < net.damping[v] <= 1.0 {
      var degree := OutCount(net.arcs, |net.arcs|, v) + InCount(net.arcs, |net.arcs|, v);
      assert HubFactors(hub, degree);
    }
  }

  lemma {:induction false} PowerKeepsMass(hub: nat -> real, net: Network<real>, start: seq<real>, k: nat)
    requires Usable(net, hub, |start|) && Nonnegative(start) && Mass(start) == 1.0
    requires Nonnegative(net.teleport) && Mass(net.teleport) == 1.0
    ensures var x := Power(Reals(hub), net, start, k);
      && Nonnegative(x) && Mass(x) <= 1.0
      && ((forall s :: 0 <= s < |start| ==> net.totals[s] != 0.0 && net.damping[s] == 1.0) ==> Mass(x) == 1.0)
  {
    hide Next, Reals, Mass;
    if k > 0 {
      PowerKeepsMass(hub, net, start, k - 1);
      NextKeepsMass(hub, net, Power(Reals(hub), net, start, k - 1));
    }
  }

  /** No dangling node, and no node damped. */
  predicate Conservative(net: Network<real>, n: nat)
    requires WellFormed(net, n)
  {
    forall s :: 0 <= s < n ==> OutCount(net.arcs, |net.arcs|, s) > 0 && net.damping[s] == 1.0
  }

  lemma {:induction false} SomeArc(arcs: seq<Arc<real>>, j: nat, s: nat)
    requires j <= |arcs| && OutCount(arcs, j, s) > 0
    ensures exists i :: 0 <= i < j && arcs[i].source == s
  {
    if arcs[j - 1].source != s {
      SomeArc(arcs, j - 1, s);
    }
  }

  /**
    For distinct nonnegative seeds every returned score is nonnegative and the
    scores add up to at most one, and to exactly one when the graph has neither
    dangling nor damped nodes.
   */
  lemma RequestMass(hub: nat -> real, plan: Plan<real>, triples: seq<Triple<real>>)
    requires triples != [] && 0.0 <= plan.teleportProbability <= 1.0
    requires forall degree: nat :: HubFactors(hub, degree)
    requires DistinctIds(plan.seeds) && NonnegativeSeeds(plan.seeds)
    requires Scores(Reals(hub), plan, triples).Success?
    ensures var c := Scores(Reals(hub), plan, triples).value;
      var net := NetworkOf(Reals(hub), plan, triples);
      && WellFormed(net, |c.scores|) && |c.scores| == |NodeIds(triples)|
      && Nonnegative(c.scores) && Mass(c.scores) <= 1.0
      && (Conservative(net, |c.scores|) ==> Mass(c.scores) == 1.0)
  {
    var ids, net := NodeIds(triples), NetworkOf(Reals(hub), plan, triples);
    NodeIdsAreEndpoints(triples);
    assert triples[0].source in Endpoints(triples);
    NetworkIsWellFormed(Reals(hub), plan, triples);
    TeleportIsDistribution(hub, ids, plan.seeds);
    var c := Scores(Reals(hub), plan, triples).value;
    if plan.maxIterations > 0 {
      RequestNetworkUsable(hub, plan, triples);
      RequestRun(hub, plan, net);
    }
  }

  lemma RequestRun(hub: nat -> real, plan: Plan<real>, net: Network<real>)
    requires Usable(net, hub, |net.teleport|)
    requires Nonnegative(net.teleport) && Mass(net.teleport) == 1.0
    requires Iterate(Reals(hub), net, plan, net.teleport, 0, 0.0).Success?
    ensures var c := Iterate(Reals(hub), net, plan, net.teleport, 0, 0.0).value;
      && |c.scores| == |net.teleport|
      && Nonnegative(c.scores) && Mass(c.scores) <= 1.0
      && (Conservative(net, |c.scores|) ==> Mass(c.scores) == 1.0)
  {
    hide Iterate, Mass;
    var start := net.teleport;
    assert Power(Reals(hub), net, start, 0) == start;
    IterateStops(Reals(hub), net, plan, start, 0, 0.0);
    var c := Iterate(Reals(hub), net, plan, start, 0, 0.0).value;
    PowerKeepsMass(hub, net, start, c.iterations);
    if Conservative(net, |start|) {
      forall s | 0 <= s < |start| ensures net.totals[s] != 0.0 {
        SomeArc(net.arcs, |net.arcs|, s);
      }
    }
  }
}
