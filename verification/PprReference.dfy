/**
  The ranking scores over exact reals by node id, straight from the triples: a
  reference that knows no index, no adjacency and no array, and the proof that the
  network computes it.
 */
module PprReference {
  import opened Text
  import opened StableSort
  import opened Graph
  import opened Csr
  import opened PprSpec
  import opened PprReal
  import opened PprGuarantees
  import opened PprOrder

  // ---------- the reference ----------

  /** How many of the first `j` triples start at the node, and how many end there. */
  function Starts<S>(triples: seq<Triple<S>>, id: string, j: nat): nat
    requires j <= |triples|
  {
    |set i | 0 <= i < j && triples[i].source == id|
  }

  function Ends<S>(triples: seq<Triple<S>>, id: string, j: nat): nat
    requires j <= |triples|
  {
    |set i | 0 <= i < j && triples[i].target == id|
  }

  /** The number of ends of edges at a node. */
  function Degree<S>(triples: seq<Triple<S>>, id: string): nat {
    Starts(triples, id, |triples|) + Ends(triples, id, |triples|)
  }

  /** The weight that leaves a node on the first `j` triples. */
  function Leaving(triples: seq<Triple<real>>, id: string, j: nat): real
    requires j <= |triples|
  {
    if j == 0 then 0.0
    else Leaving(triples, id, j - 1) + (if triples[j - 1].source == id then triples[j - 1].weight else 0.0)
  }

  type Scoring = string -> real

  /** The part of its source's score that a triple carries. */
  function Passes(triples: seq<Triple<real>>, score: Scoring, t: Triple<real>): real {
    var total := Leaving(triples, t.source, |triples|);
    if total == 0.0 then 0.0 else score(t.source) * (t.weight / total)
  }

  /** What the first `j` triples pass to a node. */
  function Inflow(triples: seq<Triple<real>>, score: Scoring, id: string, j: nat): real
    requires j <= |triples|
  {
    if j == 0 then 0.0
    else Inflow(triples, score, id, j - 1) + (if triples[j - 1].target == id then Passes(triples, score, triples[j - 1]) else 0.0)
  }

  /** A schema node with more edge ends than the threshold is damped by its hub factor, any other node not at all. */
  function Damped(hub: nat -> real, threshold: nat, triples: seq<Triple<real>>, id: string): real {
    if "schema:" <= id && Degree(triples, id) > threshold then hub(Degree(triples, id)) else 1.0
  }

  /** The sum of the seeds whose id is one of `nodes`. */
  ghost function SeedTotal(seeds: seq<(string, real)>, nodes: set<string>): real {
    if seeds == [] then 0.0 else (if seeds[0].0 in nodes then seeds[0].1 else 0.0) + SeedTotal(seeds[1..], nodes)
  }

  /** The last seed listed for a node, zero without one. */
  function SeedOf(seeds: seq<(string, real)>, id: string): real {
    if seeds == [] then 0.0
    else if seeds[|seeds| - 1].0 == id then seeds[|seeds| - 1].1
    else SeedOf(seeds[..|seeds| - 1], id)
  }

  /** Teleport goes to the seeds in proportion, or to every node alike when no seed in the graph has weight. */
  ghost function RefTeleport(seeds: seq<(string, real)>, nodes: set<string>): Scoring
    requires nodes != {}
  {
    var total := SeedTotal(seeds, nodes);
    if total > 0.0 then id => SeedOf(seeds, id) / total else id => 1.0 / (|nodes| as real)
  }

  /** One iteration, by id. */
  function RefStep(hub: nat -> real, plan: Plan<real>, triples: seq<Triple<real>>, tele: Scoring, score: Scoring): Scoring {
    id =>
      (1.0 - plan.teleportProbability) * Inflow(triples, score, id, |triples|) * Damped(hub, plan.hubDegreeThreshold, triples, id)
      + plan.teleportProbability * tele(id)
  }

  function RefScores(hub: nat -> real, plan: Plan<real>, triples: seq<Triple<real>>, tele: Scoring, k: nat): Scoring {
    if k == 0 then tele else RefStep(hub, plan, triples, tele, RefScores(hub, plan, triples, tele, k - 1))
  }

  // ---------- indices and ids ----------

  lemma ArcIsTriple<S>(triples: seq<Triple<S>>, i: nat, s: nat)
    requires i < |triples| && s < |NodeIds(triples)|
    ensures var ids := NodeIds(triples);
      && (Arcs(ids, triples)[i].source == s <==> triples[i].source == ids[s])
      && (Arcs(ids, triples)[i].target == s <==> triples[i].target == ids[s])
      && Arcs(ids, triples)[i].weight == triples[i].weight
      && Arcs(ids, triples)[i].source < |ids| && Arcs(ids, triples)[i].target < |ids|
      && ids[Arcs(ids, triples)[i].source] == triples[i].source
  {
    var ids := NodeIds(triples);
    NodeIdsAreEndpoints(triples);
    assert triples[i].source in Endpoints(triples) && triples[i].target in Endpoints(triples);
    hide NodeIds, Endpoints;
    IndexOfFinds(ids, triples[i].source);
    IndexOfFinds(ids, triples[i].target);
    IndexOfUnique(ids, s);
  }

  lemma StartsStep<S>(triples: seq<Triple<S>>, id: string, j: nat)
    requires j < |triples|
    ensures Starts(triples, id, j + 1) == Starts(triples, id, j) + (if triples[j].source == id then 1 else 0)
  {
    var before, now := set i | 0 <= i < j && triples[i].source == id, set i | 0 <= i < j + 1 && triples[i].source == id;
    if triples[j].source == id {
      assert now == before + {j};
    } else {
      assert now == before;
    }
  }

  lemma EndsStep<S>(triples: seq<Triple<S>>, id: string, j: nat)
    requires j < |triples|
    ensures Ends(triples, id, j + 1) == Ends(triples, id, j) + (if triples[j].target == id then 1 else 0)
  {
    var before, now := set i | 0 <= i < j && triples[i].target == id, set i | 0 <= i < j + 1 && triples[i].target == id;
    if triples[j].target == id {
      assert now == before + {j};
    } else {
      assert now == before;
    }
  }

  lemma NoneYet<S>(triples: seq<Triple<S>>, id: string)
    ensures Starts(triples, id, 0) == 0 && Ends(triples, id, 0) == 0
  {
  }

  lemma {:induction false} CountsAgree<S>(triples: seq<Triple<S>>, s: nat, j: nat)
    requires j <= |triples| && s < |NodeIds(triples)|
    ensures var ids := NodeIds(triples);
      && OutCount(Arcs(ids, triples), j, s) == Starts(triples, ids[s], j)
      && InCount(Arcs(ids, triples), j, s) == Ends(triples, ids[s], j)
  {
    hide NodeIds, Starts, Ends;
    if j == 0 {
      NoneYet(triples, NodeIds(triples)[s]);
    } else {
      var id := NodeIds(triples)[s];
      CountsAgree(triples, s, j - 1);
      ArcIsTriple(triples, j - 1, s);
      StartsStep(triples, id, j - 1);
      EndsStep(triples, id, j - 1);
    }
  }

  lemma {:induction false} WeightsAgree(hub: nat -> real, triples: seq<Triple<real>>, s: nat, j: nat)
    requires j <= |triples| && s < |NodeIds(triples)|
    ensures WeightSum(Reals(hub), Arcs(NodeIds(triples), triples), j, s) == Leaving(triples, NodeIds(triples)[s], j)
  {
    if j > 0 {
      WeightsAgree(hub, triples, s, j - 1);
      ArcIsTriple(triples, j - 1, s);
      hide NodeIds, Arcs;
    }
  }

  // ---------- the network ----------

  lemma DampingAgrees(hub: nat -> real, plan: Plan<real>, triples: seq<Triple<real>>, s: nat)
    requires s < |NodeIds(triples)|
    ensures NetworkOf(Reals(hub), plan, triples).damping[s]
         == Damped(hub, plan.hubDegreeThreshold, triples, NodeIds(triples)[s])
    ensures NetworkOf(Reals(hub), plan, triples).totals[s] == Leaving(triples, NodeIds(triples)[s], |triples|)
  {
    hide NodeIds, OutCount, InCount, Starts, Ends, WeightSum, Leaving, Teleport;
    assert |Arcs(NodeIds(triples), triples)| == |triples|;
    CountsAgree(triples, s, |triples|);
    WeightsAgree(hub, triples, s, |triples|);
  }

  /** The scores of a vector, by id. */
  ghost predicate Scored(ids: seq<string>, x: seq<real>, score: Scoring) {
    |x| == |ids| && forall v :: 0 <= v < |ids| ==> x[v] == score(ids[v])
  }

  /** A product of three, kept apart from the sums it stands in. */
  function Scaled(k: real, a: real, h: real): real {
    k * a * h
  }

  lemma ScaledAdds(k: real, a: real, b: real, h: real)
    ensures Scaled(k, a + b, h) == Scaled(k, a, h) + Scaled(k, b, h) && Scaled(k, 0.0, h) == 0.0
  {
    Distribute(k, a, b);
    Distribute(h, k * a, k * b);
  }

  lemma Regroup(c: real, k: real, x: real, w: real, h: real, p: real)
    requires c == k * x * w * h && p == x * w
    ensures c == Scaled(k, p, h)
  {
    assert k * x * w == k * (x * w);
  }

  lemma SharePasses(hub: nat -> real, plan: Plan<real>, triples: seq<Triple<real>>, x: seq<real>, score: Scoring, i: nat)
    requires i < |triples| && Scored(NodeIds(triples), x, score)
    ensures var net := NetworkOf(Reals(hub), plan, triples);
      && WellFormed(net, |x|) && |net.arcs| == |triples|
      && x[net.arcs[i].source] * Share(net, |x|, i) == Passes(triples, score, triples[i])
  {
    hide NodeIds, NetworkOf, Leaving, Damped, Arcs, WellFormed;
    var net := NetworkOf(Reals(hub), plan, triples);
    NetworkFields(Reals(hub), plan, triples);
    NetworkBounds(net, |x|, i);
    var a := net.arcs[i];
    ArcIsTriple(triples, i, a.source);
    DampingAgrees(hub, plan, triples, a.source);
    assert a.weight == triples[i].weight && x[a.source] == score(triples[i].source);
    assert net.totals[a.source] == Leaving(triples, triples[i].source, |triples|);
  }

  lemma NetworkBounds<S>(net: Network<S>, n: nat, i: nat)
    requires WellFormed(net, n) && i < |net.arcs|
    ensures net.arcs[i].source < n && net.arcs[i].target < n && |net.totals| == |net.damping| == n
  {
  }

  lemma CarriedIsPassed(hub: nat -> real, plan: Plan<real>, triples: seq<Triple<real>>, x: seq<real>, score: Scoring, i: nat)
    requires i < |triples| && Scored(NodeIds(triples), x, score)
    ensures var net := NetworkOf(Reals(hub), plan, triples);
      && WellFormed(net, |x|) && |net.arcs| == |triples|
      && CarriedBy(hub, net, x, i)
         == Scaled(1.0 - plan.teleportProbability, Passes(triples, score, triples[i]), net.damping[net.arcs[i].target])
  {
    hide NodeIds, NetworkOf, CarriedBy, Leaving, Share, Passes, Scaled, Scored, WellFormed;
    var net := NetworkOf(Reals(hub), plan, triples);
    NetworkFields(Reals(hub), plan, triples);
    SharePasses(hub, plan, triples, x, score, i);
    CarriedForm(hub, net, x, i);
    NetworkBounds(net, |x|, i);
    var c, k := CarriedBy(hub, net, x, i), 1.0 - plan.teleportProbability;
    var w, h := Share(net, |x|, i), net.damping[net.arcs[i].target];
    Regroup(c, k, x[net.arcs[i].source], w, h, Passes(triples, score, triples[i]));
  }

  lemma AccumulateStep(arcs: seq<Arc<real>>, c: seq<real>, n: nat, j: nat, v: nat)
    requires 0 < j <= |arcs| == |c| && Within(arcs, n) && v < n
    ensures Accumulate(arcs, c, n, j)[v] == Accumulate(arcs, c, n, j - 1)[v] + (if arcs[j - 1].target == v then c[j - 1] else 0.0)
  {
  }

  /** What has accumulated at a node is the inflow of its id. */
  lemma {:induction false} AccumulatedIsInflow(hub: nat -> real, plan: Plan<real>, triples: seq<Triple<real>>, x: seq<real>,
                                               score: Scoring, v: nat, j: nat)
    requires j <= |triples| && v < |x| && Scored(NodeIds(triples), x, score)
    ensures var net := NetworkOf(Reals(hub), plan, triples);
      && WellFormed(net, |x|) && |net.arcs| == |triples|
      && Accumulate(net.arcs, AllCarried(hub, net, x), |x|, j)[v]
         == Scaled(1.0 - plan.teleportProbability, Inflow(triples, score, NodeIds(triples)[v], j), net.damping[v])
  {
    hide NodeIds, NetworkOf, CarriedBy, AllCarried, Passes, Arcs, Scaled, Accumulate, Scored, WellFormed;
    var net, ids := NetworkOf(Reals(hub), plan, triples), NodeIds(triples);
    NetworkFields(Reals(hub), plan, triples);
    ScoredLength(ids, x, score);
    WellFormedParts(net, |x|);
    var k, c := 1.0 - plan.teleportProbability, AllCarried(hub, net, x);
    if j == 0 {
      ScaledAdds(k, 0.0, 0.0, net.damping[v]);
      AccumulateStart(net.arcs, c, |x|, v);
    } else {
      AccumulatedIsInflow(hub, plan, triples, x, score, v, j - 1);
      CarriedIsPassed(hub, plan, triples, x, score, j - 1);
      ArcIsTriple(triples, j - 1, v);
      CarriedAt(hub, net, x, j - 1);
      AccumulateStep(net.arcs, c, |x|, j, v);
      ScaledAdds(k, Inflow(triples, score, ids[v], j - 1), Passes(triples, score, triples[j - 1]), net.damping[v]);
    }
  }

  lemma ScoredLength(ids: seq<string>, x: seq<real>, score: Scoring)
    requires Scored(ids, x, score)
    ensures |x| == |ids|
  {
  }

  lemma WellFormedParts<S>(net: Network<S>, n: nat)
    requires WellFormed(net, n)
    ensures Within(net.arcs, n) && |net.totals| == |net.damping| == |net.teleport| == n
  {
  }

  lemma CarriedAt(hub: nat -> real, net: Network<real>, x: seq<real>, j: nat)
    requires WellFormed(net, |x|) && j < |net.arcs|
    ensures AllCarried(hub, net, x)[j] == CarriedBy(hub, net, x, j)
  {
    hide CarriedBy;
  }

  lemma AccumulateStart(arcs: seq<Arc<real>>, c: seq<real>, n: nat, v: nat)
    requires |arcs| == |c| && Within(arcs, n) && v < n
    ensures Accumulate(arcs, c, n, 0)[v] == 0.0
  {
  }

  lemma NetworkFields<S>(A: Arith<S>, plan: Plan<S>, triples: seq<Triple<S>>)
    ensures var net, ids := NetworkOf(A, plan, triples), NodeIds(triples);
      && WellFormed(net, |ids|) && net.t == plan.teleportProbability
      && net.arcs == Arcs(ids, triples) && |net.arcs| == |triples| && net.teleport == Teleport(A, ids, plan.seeds)
  {
    NetworkIsWellFormed(A, plan, triples);
  }

  lemma StepAt(hub: nat -> real, plan: Plan<real>, triples: seq<Triple<real>>, tele: Scoring, score: Scoring, id: string)
    ensures RefStep(hub, plan, triples, tele, score)(id)
         == Scaled(1.0 - plan.teleportProbability, Inflow(triples, score, id, |triples|),
           Damped(hub, plan.hubDegreeThreshold, triples, id))
            + plan.teleportProbability * tele(id)
  {
    hide Inflow, Damped;
  }

  /** One step of the network is one step of the reference. */
  lemma NextIsRefStep(hub: nat -> real, plan: Plan<real>, triples: seq<Triple<real>>, x: seq<real>, score: Scoring, tele: Scoring)
    requires Scored(NodeIds(triples), x, score) && Scored(NodeIds(triples), NetworkOf(Reals(hub), plan, triples).teleport, tele)
    ensures var net := NetworkOf(Reals(hub), plan, triples);
      WellFormed(net, |x|) && Scored(NodeIds(triples), Next(Reals(hub), net, x), RefStep(hub, plan, triples, tele, score))
  {
    hide NodeIds, NetworkOf, Next, AllCarried, Accumulate, Reals, Inflow, Damped, Scaled, RefStep, WellFormed, Arcs, Teleport;
    var net, ids := NetworkOf(Reals(hub), plan, triples), NodeIds(triples);
    NetworkFields(Reals(hub), plan, triples);
    WellFormedParts(net, |ids|);
    var next, step := Next(Reals(hub), net, x), RefStep(hub, plan, triples, tele, score);
    forall v | 0 <= v < |ids| ensures next[v] == step(ids[v]) {
      NextIsShifted(hub, net, x, v);
      AccumulatedIsInflow(hub, plan, triples, x, score, v, |triples|);
      DampingAgrees(hub, plan, triples, v);
      StepAt(hub, plan, triples, tele, score, ids[v]);
      assert net.teleport[v] == tele(ids[v]);
    }
  }

  /** The scores after `k` iterations are the reference's. */
  lemma {:induction false} PowerIsReference(hub: nat -> real, plan: Plan<real>, triples: seq<Triple<real>>, tele: Scoring, k: nat)
    requires Scored(NodeIds(triples), NetworkOf(Reals(hub), plan, triples).teleport, tele)
    ensures var net := NetworkOf(Reals(hub), plan, triples);
      && WellFormed(net, |net.teleport|)
      && Scored(NodeIds(triples), Power(Reals(hub), net, net.teleport, k), RefScores(hub, plan, triples, tele, k))
  {
    var net := NetworkOf(Reals(hub), plan, triples);
    NetworkIsWellFormed(Reals(hub), plan, triples);
    hide NodeIds, NetworkOf, Next, Reals, RefStep, Scored;
    if k > 0 {
      PowerIsReference(hub, plan, triples, tele, k - 1);
      NextIsRefStep(hub, plan, triples, Power(Reals(hub), net, net.teleport, k - 1),
        RefScores(hub, plan, triples, tele, k - 1), tele);
    }
  }

  // ---------- teleport ----------

  lemma {:induction false} TotalSnoc(seeds: seq<(string, real)>, last: (string, real), nodes: set<string>)
    ensures SeedTotal(seeds + [last], nodes) == SeedTotal(seeds, nodes) + (if last.0 in nodes then last.1 else 0.0)
  {
    if seeds == [] {
      assert seeds + [last] == [last];
    } else {
      TotalSnoc(seeds[1..], last, nodes);
      assert (seeds + [last])[1..] == seeds[1..] + [last];
    }
  }

  /** Placing the first `j` seeds gives every node its last seed and adds up all of them. */
  lemma {:induction false} PlacedIsSeed(hub: nat -> real, ids: seq<string>, seeds: seq<(string, real)>, j: nat)
    requires j <= |seeds| && Distinct(ids)
    ensures var (vector, sum) := PlaceSeeds(Reals(hub), ids, seeds, j);
      && sum == SeedTotal(seeds[..j], set id | id in ids)
      && forall v :: 0 <= v < |ids| ==> vector[v] == SeedOf(seeds[..j], ids[v])
  {
    if j > 0 {
      PlacedIsSeed(hub, ids, seeds, j - 1);
      assert seeds[..j] == seeds[..j - 1] + [seeds[j - 1]] && seeds[..j][..j - 1] == seeds[..j - 1];
      TotalSnoc(seeds[..j - 1], seeds[j - 1], set id | id in ids);
      IndexOfFinds(ids, seeds[j - 1].0);
      hide Distinct, IndexOf;
    }
  }

  lemma {:induction false} TotalInsert(x: (string, real), s: seq<(string, real)>, nodes: set<string>)
    ensures SeedTotal(Insert(SeedLeq, x, s), nodes) == (if x.0 in nodes then x.1 else 0.0) + SeedTotal(s, nodes)
  {
    hide SeedLeq;
    if s == [] || SeedLeq(x, s[0]) {
      assert ([x] + s)[1..] == s;
    } else {
      TotalInsert(x, s[1..], nodes);
      var r := Insert(SeedLeq, x, s[1..]);
      assert ([s[0]] + r)[1..] == r;
    }
  }

  lemma {:induction false} TotalSorted(seeds: seq<(string, real)>, nodes: set<string>)
    ensures SeedTotal(Sort(SeedLeq, seeds), nodes) == SeedTotal(seeds, nodes)
  {
    if seeds != [] {
      TotalSorted(seeds[1..], nodes);
      TotalInsert(seeds[0], Sort(SeedLeq, seeds[1..]), nodes);
    }
  }

  /** The last seed of a node is read off the seeds of that node alone. */
  lemma {:induction false} SeedOfFilter(seeds: seq<(string, real)>, id: string)
    ensures var own := Filter((y: (string, real)) => y.0 == id, seeds);
      SeedOf(seeds, id) == if own == [] then 0.0 else own[|own| - 1].1
  {
    if seeds != [] {
      var before, last := seeds[..|seeds| - 1], seeds[|seeds| - 1];
      SeedOfFilter(before, id);
      assert seeds == before + [last];
      FilterConcat((y: (string, real)) => y.0 == id, before, [last]);
    }
  }

  lemma {:induction false} FilterSame<T>(p: T -> bool, q: T -> bool, s: seq<T>)
    requires forall i :: 0 <= i < |s| ==> p(s[i]) == q(s[i])
    ensures Filter(p, s) == Filter(q, s)
  {
    if s != [] {
      FilterSame(p, q, s[1..]);
    }
  }

  lemma SeedOfSorted(seeds: seq<(string, real)>, id: string)
    ensures SeedOf(Sort(SeedLeq, seeds), id) == SeedOf(seeds, id)
  {
    var z := (id, 0.0);
    var p, q := (y: (string, real)) => y.0 == id, (y: (string, real)) => Equivalent(SeedLeq, y, z);
    IdOrderIsTotal();
    SeedPreorder<real>();
    SeedOfFilter(seeds, id);
    SeedOfFilter(Sort(SeedLeq, seeds), id);
    SortIsStable(SeedLeq, z, seeds);
    forall y: (string, real) ensures p(y) == q(y) {
      assert Equivalent(SeedLeq, y, z) <==> IdLeq(y.0, id) && IdLeq(id, y.0);
      assert IdLeq(id, id) || IdLeq(id, id);
    }
    FilterSame(p, q, seeds);
    FilterSame(p, q, Sort(SeedLeq, seeds));
  }

  lemma TeleportIsRef(hub: nat -> real, plan: Plan<real>, triples: seq<Triple<real>>)
    requires triples != []
    ensures Endpoints(triples) != {}
    ensures Scored(NodeIds(triples), NetworkOf(Reals(hub), plan, triples).teleport, RefTeleport(plan.seeds, Endpoints(triples)))
  {
    hide NodeIds, NetworkOf, PlaceSeeds, Sort, SeedTotal, SeedOf, Teleport, Reals;
    var ids, sorted := NodeIds(triples), Sort(SeedLeq, plan.seeds);
    NodeIdsAreEndpoints(triples);
    assert triples[0].source in Endpoints(triples);
    assert triples[0].source in ids;
    hide Endpoints;
    NetworkFields(Reals(hub), plan, triples);
    TeleportForm(hub, ids, plan.seeds);
    PlacedIsSeed(hub, ids, sorted, |sorted|);
    assert sorted[..|sorted|] == sorted;
    assert (set id | id in ids) == Endpoints(triples);
    TotalSorted(plan.seeds, Endpoints(triples));
    forall v | 0 <= v < |ids| ensures SeedOf(sorted, ids[v]) == SeedOf(plan.seeds, ids[v]) {
      SeedOfSorted(plan.seeds, ids[v]);
    }
  }
}
