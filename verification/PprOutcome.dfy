/**
  What a whole ranking request returns, without its network: the reference's
  scores at the reference's stopping point, undamped where no schema node is a
  hub, and the best passages and facts under them.
 */
module PprOutcome {
  import opened Wrappers
  import opened StableSort
  import opened Graph
  import opened Csr
  import opened Ranking
  import opened PprSpec
  import opened PprReal
  import opened PprGuarantees
  import opened PprReference
  import opened Materialize
  import opened PprKernel

  // ---------- the triples ----------

  /** The edge belongs to the corpus, and ranking reads it as `t`. */
  predicate Reads<S(==)>(e: GraphEdge<S>, corpusId: string, t: Triple<S>) {
    e.corpusId == corpusId && e.sourceNodeId == t.source && e.targetNodeId == t.target && e.weight == t.weight
  }

  function Reading<S(==)>(edges: seq<GraphEdge<S>>, corpusId: string, t: Triple<S>, j: nat): nat
    requires j <= |edges|
  {
    |set i | 0 <= i < j && Reads(edges[i], corpusId, t)|
  }

  lemma ReadingStep<S>(edges: seq<GraphEdge<S>>, corpusId: string, t: Triple<S>, j: nat)
    requires j < |edges|
    ensures Reading(edges, corpusId, t, j + 1)
      == Reading(edges, corpusId, t, j) + (if Reads(edges[j], corpusId, t) then 1 else 0)
  {
    hide Reads;
    var before := set i | 0 <= i < j && Reads(edges[i], corpusId, t);
    var now := set i | 0 <= i < j + 1 && Reads(edges[i], corpusId, t);
    if Reads(edges[j], corpusId, t) {
      assert now == before + {j};
    } else {
      assert now == before;
    }
  }

  lemma TriplesSnoc<S>(edges: seq<GraphEdge<S>>, corpusId: string, j: nat)
    requires j < |edges|
    ensures Triples(OfCorpus(edges[..j + 1], corpusId))
      == Triples(OfCorpus(edges[..j], corpusId)) + (if edges[j].corpusId == corpusId then [TripleOf(edges[j])] else [])
  {
    assert edges[..j + 1] == edges[..j] + [edges[j]];
    FilterConcat((e: GraphEdge<S>) => e.corpusId == corpusId, edges[..j], [edges[j]]);
  }

  lemma NoTriples<S>(edges: seq<GraphEdge<S>>, corpusId: string)
    ensures Triples(OfCorpus(edges[..0], corpusId)) == []
  {
  }

  lemma {:induction false} TriplesCounted<S>(edges: seq<GraphEdge<S>>, corpusId: string, t: Triple<S>, j: nat)
    requires j <= |edges|
    ensures multiset(Triples(OfCorpus(edges[..j], corpusId)))[t] == Reading(edges, corpusId, t, j)
  {
    hide OfCorpus;
    if j > 0 {
      hide Reading;
      TriplesCounted(edges, corpusId, t, j - 1);
      TriplesSnoc(edges, corpusId, j - 1);
      ReadingStep(edges, corpusId, t, j - 1);
    } else {
      NoTriples(edges, corpusId);
    }
  }

  /** A triple stands in the canonical order as often as edges of the corpus read as it. */
  lemma CanonicalCounts<S>(A: Arith<S>, edges: seq<GraphEdge<S>>, corpusId: string, t: Triple<S>)
    ensures multiset(Canonical(A, edges, corpusId))[t] == Reading(edges, corpusId, t, |edges|)
  {
    hide Reading, OfCorpus, Sort, Triples;
    SortIsPermutation((a, b) => TripleLeq(A.leq, a, b), Triples(OfCorpus(edges, corpusId)));
    TriplesCounted(edges, corpusId, t, |edges|);
    assert edges[..|edges|] == edges;
  }

  // ---------- the whole run ----------

  /** The scores by id after `k` iterations, from the triples, the seeds and the plan alone. */
  ghost function ScoreAfter(hub: nat -> real, plan: Plan<real>, triples: seq<Triple<real>>, k: nat): Scoring
    requires Endpoints(triples) != {}
  {
    RefScores(hub, plan, triples, RefTeleport(plan.seeds, Endpoints(triples)), k)
  }

  /** How far the scores of the listed nodes move. */
  function Moved(ids: seq<string>, now: Scoring, before: Scoring): real {
    if ids == [] then 0.0
    else Moved(ids[..|ids| - 1], now, before) + Abs(now(ids[|ids| - 1]) - before(ids[|ids| - 1]))
  }

  /** The distance of the k-th iteration. */
  ghost function MovedAt(hub: nat -> real, plan: Plan<real>, triples: seq<Triple<real>>, k: nat): real
    requires Endpoints(triples) != {} && k > 0
  {
    Moved(NodeIds(triples), ScoreAfter(hub, plan, triples, k), ScoreAfter(hub, plan, triples, k - 1))
  }

  /** The run ends after the first iteration that moves less than epsilon, or at the limit. */
  ghost predicate StopsAt(hub: nat -> real, plan: Plan<real>, triples: seq<Triple<real>>, c: Converged<real>)
    requires Endpoints(triples) != {}
  {
    && c.iterations <= plan.maxIterations
    && c.l1Delta == (if c.iterations == 0 then 0.0 else MovedAt(hub, plan, triples, c.iterations))
    && (c.converged <==> c.iterations > 0 && c.l1Delta < plan.convergenceEpsilon)
    && (!c.converged ==> c.iterations == plan.maxIterations)
    && (forall k :: 0 < k < c.iterations ==> MovedAt(hub, plan, triples, k) >= plan.convergenceEpsilon)
  }

  /** No negative weight, and no iteration over a source without outgoing weight. */
  predicate Acceptable(plan: Plan<real>, triples: seq<Triple<real>>) {
    && (forall i :: 0 <= i < |triples| ==> triples[i].weight >= 0.0)
    && (plan.maxIterations == 0 || forall i :: 0 <= i < |triples| ==> Leaving(triples, triples[i].source, |triples|) > 0.0)
  }

  lemma {:induction false} DeltaIsMoved(hub: nat -> real, ids: seq<string>, x: seq<real>, y: seq<real>, now: Scoring,
                                        before: Scoring, j: nat)
    requires j <= |ids| && Scored(ids, x, now) && Scored(ids, y, before)
    ensures Delta(Reals(hub), x, y, j) == Moved(ids[..j], now, before)
  {
    if j > 0 {
      DeltaIsMoved(hub, ids, x, y, now, before, j - 1);
      assert ids[..j][..j - 1] == ids[..j - 1];
    }
  }

  lemma {:induction false} RealsIterate(hub: nat -> real, net: Network<real>, plan: Plan<real>, scores: seq<real>,
                                        done: nat, l1: real)
    requires WellFormed(net, |scores|) && done <= plan.maxIterations
    ensures Iterate(Reals(hub), net, plan, scores, done, l1).Success?
      <==> done == plan.maxIterations || TotalsUsable(Reals(hub), net, |scores|)
    decreases plan.maxIterations - done
  {
    hide TotalsUsable, Next, Delta;
    if done < plan.maxIterations {
      var next := Next(Reals(hub), net, scores);
      RealsIterate(hub, net, plan, next, done + 1, Delta(Reals(hub), next, scores, |scores|));
    }
  }

  lemma UsableIsLeaving(hub: nat -> real, plan: Plan<real>, triples: seq<Triple<real>>)
    ensures var net, n := NetworkOf(Reals(hub), plan, triples), |NodeIds(triples)|;
      && WellFormed(net, n)
      && (TotalsUsable(Reals(hub), net, n)
          <==> forall i :: 0 <= i < |triples| ==> Leaving(triples, triples[i].source, |triples|) > 0.0)
  {
    hide NodeIds, NetworkOf, Leaving, Arcs;
    var net, n := NetworkOf(Reals(hub), plan, triples), |NodeIds(triples)|;
    NetworkFields(Reals(hub), plan, triples);
    forall i | 0 <= i < |triples|
      ensures net.arcs[i].source < n && net.totals[net.arcs[i].source] == Leaving(triples, triples[i].source, |triples|)
    {
      NetworkBounds(net, n, i);
      ArcIsTriple(triples, i, net.arcs[i].source);
      DampingAgrees(hub, plan, triples, net.arcs[i].source);
    }
  }

  lemma AcceptedIsNonnegative(hub: nat -> real, plan: Plan<real>, triples: seq<Triple<real>>)
    ensures ArcsAccepted(Reals(hub), NetworkOf(Reals(hub), plan, triples).arcs)
      <==> forall i :: 0 <= i < |triples| ==> triples[i].weight >= 0.0
  {
    hide NodeIds, NetworkOf, WeightSum;
    NetworkFields(Reals(hub), plan, triples);
    var arcs := NetworkOf(Reals(hub), plan, triples).arcs;
    forall i | 0 <= i < |triples|
      ensures arcs[i].weight == triples[i].weight && (ArcAccepted(Reals(hub), arcs, i) <==> triples[i].weight >= 0.0)
    {
    }
  }

  /** A run over exact reals fails exactly on a negative weight or on a source without outgoing weight. */
  lemma ScoresSucceed(hub: nat -> real, plan: Plan<real>, triples: seq<Triple<real>>)
    ensures Scores(Reals(hub), plan, triples).Success? <==> Acceptable(plan, triples)
  {
    hide NodeIds, NetworkOf, Iterate, TotalsUsable, ArcsAccepted, Leaving, WellFormed;
    var net := NetworkOf(Reals(hub), plan, triples);
    NetworkFields(Reals(hub), plan, triples);
    WellFormedParts(net, |NodeIds(triples)|);
    AcceptedIsNonnegative(hub, plan, triples);
    UsableIsLeaving(hub, plan, triples);
    RealsIterate(hub, net, plan, net.teleport, 0, 0.0);
  }

  /**
    A successful run gives every node the score the reference gives its id, after
    the number of iterations that the reference's own distances call for.
   */
  lemma ScoresAreReference(hub: nat -> real, plan: Plan<real>, triples: seq<Triple<real>>)
    requires triples != [] && Scores(Reals(hub), plan, triples).Success?
    ensures var c := Scores(Reals(hub), plan, triples).value;
      && Endpoints(triples) != {}
      && Scored(NodeIds(triples), c.scores, ScoreAfter(hub, plan, triples, c.iterations))
      && StopsAt(hub, plan, triples, c)
  {
    hide NodeIds, NetworkOf, Iterate, WellFormed, Endpoints, RefTeleport, RefScores, Scored, Reals, Power, StepDelta, ArcsAccepted;
    var net := NetworkOf(Reals(hub), plan, triples);
    var tele := net.teleport;
    NetworkFields(Reals(hub), plan, triples);
    WellFormedParts(net, |NodeIds(triples)|);
    TeleportIsRef(hub, plan, triples);
    PowerStart(hub, net);
    RealConstants(hub);
    IterateStops(Reals(hub), net, plan, tele, 0, 0.0);
    var c := Scores(Reals(hub), plan, triples).value;
    PowerIsReference(hub, plan, triples, RefTeleport(plan.seeds, Endpoints(triples)), c.iterations);
    forall k: nat | k > 0 ensures StepDelta(Reals(hub), net, tele, k) == MovedAt(hub, plan, triples, k) {
      StepIsMoved(hub, plan, triples, k);
    }
    assert forall k :: 0 < k < c.iterations ==> StepDelta(Reals(hub), net, tele, k) == MovedAt(hub, plan, triples, k);
  }

  lemma PowerStart(hub: nat -> real, net: Network<real>)
    requires WellFormed(net, |net.teleport|)
    ensures Power(Reals(hub), net, net.teleport, 0) == net.teleport
  {
  }

  lemma RealConstants(hub: nat -> real)
    ensures Reals(hub).zero == 0.0 && forall a, b :: (Reals(hub).less)(a, b) <==> a < b
  {
  }

  lemma StepIsMoved(hub: nat -> real, plan: Plan<real>, triples: seq<Triple<real>>, k: nat)
    requires triples != [] && k > 0 && Endpoints(triples) != {}
    ensures var net := NetworkOf(Reals(hub), plan, triples);
      && WellFormed(net, |net.teleport|)
      && StepDelta(Reals(hub), net, net.teleport, k) == MovedAt(hub, plan, triples, k)
  {
    hide NodeIds, NetworkOf, WellFormed, Endpoints, RefTeleport, RefScores, Reals, Power, Delta;
    var net, ids := NetworkOf(Reals(hub), plan, triples), NodeIds(triples);
    var tele, start := RefTeleport(plan.seeds, Endpoints(triples)), net.teleport;
    NetworkFields(Reals(hub), plan, triples);
    WellFormedParts(net, |ids|);
    TeleportIsRef(hub, plan, triples);
    PowerIsReference(hub, plan, triples, tele, k);
    PowerIsReference(hub, plan, triples, tele, k - 1);
    DeltaIsMoved(hub, ids, Power(Reals(hub), net, start, k), Power(Reals(hub), net, start, k - 1),
      RefScores(hub, plan, triples, tele, k), RefScores(hub, plan, triples, tele, k - 1), |ids|);
    assert ids[..|ids|] == ids;
  }

  // ---------- hubs ----------

  /** A schema node with more edge ends than the threshold keeps of its inflow what its hub factor leaves, any other node all. */
  lemma HubsAreDamped(hub: nat -> real, plan: Plan<real>, triples: seq<Triple<real>>, v: nat)
    requires triples != [] && Scores(Reals(hub), plan, triples).Success? && v < |NodeIds(triples)|
    requires Scores(Reals(hub), plan, triples).value.iterations > 0
    ensures Endpoints(triples) != {}
    ensures var c, id := Scores(Reals(hub), plan, triples).value, NodeIds(triples)[v];
      var before := ScoreAfter(hub, plan, triples, c.iterations - 1);
      var inflow := (1.0 - plan.teleportProbability) * Inflow(triples, before, id, |triples|);
      var teleport := plan.teleportProbability * RefTeleport(plan.seeds, Endpoints(triples))(id);
      var degree := |set i | 0 <= i < |triples| && triples[i].source == id|
                    + |set i | 0 <= i < |triples| && triples[i].target == id|;
      c.scores[v] ==
        if |id| >= 7 && id[..7] == "schema:" && degree > plan.hubDegreeThreshold
        then inflow * hub(degree) + teleport else inflow + teleport
  {
    hide NodeIds, Inflow, RefTeleport, Scores, StopsAt;
    ScoresAreReference(hub, plan, triples);
    var c, id := Scores(Reals(hub), plan, triples).value, NodeIds(triples)[v];
    assert c.scores[v] == ScoreAfter(hub, plan, triples, c.iterations)(id);
  }

  /** No schema node has more edge ends than the threshold. */
  predicate Quiet<S>(threshold: nat, triples: seq<Triple<S>>) {
    forall i :: 0 <= i < |triples| ==>
      QuietAt(threshold, triples, triples[i].source) && QuietAt(threshold, triples, triples[i].target)
  }

  predicate QuietAt<S>(threshold: nat, triples: seq<Triple<S>>, id: string) {
    |id| >= 7 && id[..7] == "schema:" ==>
      |set i | 0 <= i < |triples| && triples[i].source == id| + |set i | 0 <= i < |triples| && triples[i].target == id| <= threshold
  }

  /** The arithmetic whose hub factor is constantly one. */
  function Undamped<S>(A: Arith<S>): Arith<S> {
    A.(hubFactor := degree => A.one)
  }

  lemma QuietNode<S>(threshold: nat, triples: seq<Triple<S>>, v: nat)
    requires Quiet(threshold, triples) && v < |NodeIds(triples)|
    ensures QuietAt(threshold, triples, NodeIds(triples)[v])
  {
    hide QuietAt;
    NodeIdsAreEndpoints(triples);
    var id := NodeIds(triples)[v];
    assert id in Endpoints(triples);
    var t :| t in triples && (t.source == id || t.target == id);
    var i :| 0 <= i < |triples| && triples[i] == t;
  }

  lemma {:induction false} SumsUndamped<S>(A: Arith<S>, arcs: seq<Arc<S>>, j: nat, s: nat)
    requires j <= |arcs|
    ensures WeightSum(Undamped(A), arcs, j, s) == WeightSum(A, arcs, j, s)
  {
    if j > 0 {
      SumsUndamped(A, arcs, j - 1, s);
    }
  }

  lemma {:induction false} SeedsUndamped<S>(A: Arith<S>, ids: seq<string>, seeds: seq<(string, S)>, j: nat)
    requires j <= |seeds|
    ensures PlaceSeeds(Undamped(A), ids, seeds, j) == PlaceSeeds(A, ids, seeds, j)
  {
    if j > 0 {
      SeedsUndamped(A, ids, seeds, j - 1);
    }
  }

  lemma TeleportUndamped<S>(A: Arith<S>, ids: seq<string>, seeds: seq<(string, S)>)
    ensures Teleport(Undamped(A), ids, seeds) == Teleport(A, ids, seeds)
  {
    hide PlaceSeeds, Sort;
    var sorted := Sort(SeedLeq, seeds);
    SeedsUndamped(A, ids, sorted, |sorted|);
  }

  lemma {:induction false} SpreadUndamped<S>(A: Arith<S>, net: Network<S>, scores: seq<S>, j: nat)
    requires WellFormed(net, |scores|) && j <= |net.arcs|
    ensures Spread(Undamped(A), net, scores, j) == Spread(A, net, scores, j)
  {
    if j > 0 {
      SpreadUndamped(A, net, scores, j - 1);
    }
  }

  lemma {:induction false} DeltaUndamped<S>(A: Arith<S>, next: seq<S>, previous: seq<S>, j: nat)
    requires j <= |next| == |previous|
    ensures Delta(Undamped(A), next, previous, j) == Delta(A, next, previous, j)
  {
    if j > 0 {
      DeltaUndamped(A, next, previous, j - 1);
    }
  }

  /** Past the construction of the network the hub factor is not read any more. */
  lemma {:induction false} IterateUndamped<S>(A: Arith<S>, net: Network<S>, plan: Plan<S>, scores: seq<S>, done: nat, l1: S)
    requires WellFormed(net, |scores|) && done <= plan.maxIterations
    ensures Iterate(Undamped(A), net, plan, scores, done, l1) == Iterate(A, net, plan, scores, done, l1)
    decreases plan.maxIterations - done
  {
    hide Spread, Delta;
    if done < plan.maxIterations {
      var next := Next(A, net, scores);
      SpreadUndamped(A, net, scores, |net.arcs|);
      assert Next(Undamped(A), net, scores) == next;
      DeltaUndamped(A, next, scores, |scores|);
      IterateUndamped(A, net, plan, next, done + 1, Delta(A, next, scores, |scores|));
    }
  }

  lemma NetworkUndamped<S>(A: Arith<S>, plan: Plan<S>, triples: seq<Triple<S>>)
    requires Quiet(plan.hubDegreeThreshold, triples)
    ensures NetworkOf(Undamped(A), plan, triples) == NetworkOf(A, plan, triples)
  {
    hide NodeIds, WeightSum, Teleport, OutCount, InCount, Quiet, QuietAt;
    var ids := NodeIds(triples);
    TeleportUndamped(A, ids, plan.seeds);
    var net, other := NetworkOf(A, plan, triples), NetworkOf(Undamped(A), plan, triples);
    forall s | 0 <= s < |ids| ensures other.totals[s] == net.totals[s] && other.damping[s] == net.damping[s] {
      SumsUndamped(A, net.arcs, |net.arcs|, s);
      QuietDamping(A, plan, triples, s);
    }
  }

  lemma QuietDamping<S>(A: Arith<S>, plan: Plan<S>, triples: seq<Triple<S>>, s: nat)
    requires Quiet(plan.hubDegreeThreshold, triples) && s < |NodeIds(triples)|
    ensures NetworkOf(A, plan, triples).damping[s] == A.one
  {
    hide NodeIds, WeightSum, Teleport, OutCount, InCount, Quiet;
    QuietNode(plan.hubDegreeThreshold, triples, s);
    CountsAgree(triples, s, |triples|);
    assert |Arcs(NodeIds(triples), triples)| == |triples|;
  }

  /** Over any arithmetic a graph of quiet schema nodes is scored as if no hub were damped. */
  lemma QuietHubsUndamped<S>(A: Arith<S>, plan: Plan<S>, triples: seq<Triple<S>>)
    requires Quiet(plan.hubDegreeThreshold, triples)
    ensures Scores(A, plan, triples) == Scores(Undamped(A), plan, triples)
  {
    hide NodeIds, NetworkOf, Iterate, WeightSum;
    NetworkUndamped(A, plan, triples);
    var net := NetworkOf(A, plan, triples);
    NetworkIsWellFormed(A, plan, triples);
    forall j | 0 <= j < |net.arcs| ensures ArcAccepted(A, net.arcs, j) == ArcAccepted(Undamped(A), net.arcs, j) {
      SumsUndamped(A, net.arcs, j + 1, net.arcs[j].source);
    }
    IterateUndamped(A, net, plan, net.teleport, 0, A.zero);
  }

  predicate HasOutEdge<S>(triples: seq<Triple<S>>, id: string) {
    exists j :: 0 <= j < |triples| && triples[j].source == id
  }

  /** Without hubs and without dangling nodes no mass is lost, whatever the hub factor. */
  lemma QuietHubsConserve(hub: nat -> real, plan: Plan<real>, triples: seq<Triple<real>>)
    requires triples != [] && 0.0 <= plan.teleportProbability <= 1.0
    requires DistinctIds(plan.seeds) && NonnegativeSeeds(plan.seeds)
    requires Quiet(plan.hubDegreeThreshold, triples)
    requires forall i :: 0 <= i < |triples| ==> HasOutEdge(triples, triples[i].target)
    requires Scores(Reals(hub), plan, triples).Success?
    ensures Mass(Scores(Reals(hub), plan, triples).value.scores) == 1.0
  {
    hide NodeIds, NetworkOf, Scores, Mass, Quiet, QuietAt;
    var flat := (degree: nat) => 1.0;
    QuietHubsUndamped(Reals(hub), plan, triples);
    QuietHubsUndamped(Reals(flat), plan, triples);
    assert Undamped(Reals(hub)) == Undamped(Reals(flat));
    forall degree: nat ensures HubFactors(flat, degree) {
    }
    RequestMass(flat, plan, triples);
    var net := NetworkOf(Reals(flat), plan, triples);
    NetworkFields(Reals(flat), plan, triples);
    forall s | 0 <= s < |NodeIds(triples)| ensures OutCount(net.arcs, |net.arcs|, s) > 0 && net.damping[s] == 1.0 {
      QuietDamping(Reals(flat), plan, triples, s);
      CountsAgree(triples, s, |triples|);
      EveryNodeLeaves(triples, NodeIds(triples)[s]);
      var j :| 0 <= j < |triples| && triples[j].source == NodeIds(triples)[s];
      SomeStart(triples, j, |triples|);
    }
  }

  lemma EveryNodeLeaves<S>(triples: seq<Triple<S>>, id: string)
    requires id in NodeIds(triples)
    requires forall i :: 0 <= i < |triples| ==> HasOutEdge(triples, triples[i].target)
    ensures HasOutEdge(triples, id)
  {
    hide NodeIds, HasOutEdge;
    NodeIdsAreEndpoints(triples);
    var t :| t in triples && (t.source == id || t.target == id);
    var i :| 0 <= i < |triples| && triples[i] == t;
    if t.source == id {
      SourceLeaves(triples, i);
    }
  }

  lemma SourceLeaves<S>(triples: seq<Triple<S>>, i: nat)
    requires i < |triples|
    ensures HasOutEdge(triples, triples[i].source)
  {
  }

  lemma {:induction false} SomeStart<S>(triples: seq<Triple<S>>, i: nat, j: nat)
    requires i < j <= |triples|
    ensures Starts(triples, triples[i].source, j) > 0
  {
    hide Starts;
    StartsStep(triples, triples[i].source, j - 1);
    if i < j - 1 {
      SomeStart(triples, i, j - 1);
    }
  }

  // ---------- the answer ----------

  predicate IsOffer<S(==)>(ids: seq<string>, scores: seq<S>, prefix: string, k: Key<S>, v: nat)
    requires |ids| == |scores|
  {
    v < |ids| && prefix <= ids[v] && k == Key(scores[v], ids[v])
  }

  ghost predicate IsNode<S>(ids: seq<string>, scores: seq<S>, prefix: string, k: Key<S>)
    requires |ids| == |scores|
  {
    exists v: nat :: IsOffer(ids, scores, prefix, k, v)
  }

  /** `ranked` are the best `limit` nodes whose id starts with `prefix`, best first, each once, and none better is left out. */
  ghost predicate TopNodes<S(!new)>(leq: (S, S) -> bool, ids: seq<string>, scores: seq<S>, prefix: string, limit: nat,
                                    ranked: seq<Key<S>>)
    requires |ids| == |scores|
  {
    && |ranked| <= limit
    && (forall i, j :: 0 <= i < j < |ranked| ==> ranked[i].id != ranked[j].id && Precedes(leq, ranked[i], ranked[j]))
    && (forall i :: 0 <= i < |ranked| ==> IsNode(ids, scores, prefix, ranked[i]))
    && (forall k :: IsNode(ids, scores, prefix, k) && k !in ranked ==>
          |ranked| == limit && forall i :: 0 <= i < |ranked| ==> Precedes(leq, ranked[i], k))
  }

  lemma {:induction false} OffersAre<S>(ids: seq<string>, scores: seq<S>, prefix: string, j: nat, k: Key<S>)
    requires j <= |ids| == |scores|
    ensures k in Offers(ids, scores, prefix, j) <==> exists v: nat :: v < j && IsOffer(ids, scores, prefix, k, v)
    ensures j == |ids| ==> (k in Offers(ids, scores, prefix, j) <==> IsNode(ids, scores, prefix, k))
  {
    if j > 0 {
      OffersAre(ids, scores, prefix, j - 1, k);
      var before := Offers(ids, scores, prefix, j - 1);
      if prefix <= ids[j - 1] {
        assert Offers(ids, scores, prefix, j) == before + [Key(scores[j - 1], ids[j - 1])];
      }
      if k == Key(scores[j - 1], ids[j - 1]) && prefix <= ids[j - 1] {
        assert IsOffer(ids, scores, prefix, k, j - 1);
      }
    }
  }

  lemma {:induction false} OffersApart<S>(ids: seq<string>, scores: seq<S>, prefix: string, j: nat)
    requires j <= |ids| == |scores| && Distinct(ids)
    ensures forall x, y :: 0 <= x < y < |Offers(ids, scores, prefix, j)| ==>
      Offers(ids, scores, prefix, j)[x].id != Offers(ids, scores, prefix, j)[y].id
  {
    if j > 0 {
      OffersApart(ids, scores, prefix, j - 1);
      var before := Offers(ids, scores, prefix, j - 1);
      forall x | 0 <= x < |before| ensures before[x].id != ids[j - 1] {
        OffersAre(ids, scores, prefix, j - 1, before[x]);
        var v: nat :| v < j - 1 && IsOffer(ids, scores, prefix, before[x], v);
      }
    }
  }

  /** The answer's two lists are the best passage nodes and the best fact nodes. */
  lemma AnswerIsTop<S(!new)>(A: Arith<S>, plan: Plan<S>, triples: seq<Triple<S>>)
    requires TotalOrder(A.leq) && triples != [] && PprAnswer(A, plan, triples).Success?
    ensures Scores(A, plan, triples).Success?
    ensures var answer, c, ids := PprAnswer(A, plan, triples).value, Scores(A, plan, triples).value, NodeIds(triples);
      && TopNodes(A.leq, ids, c.scores, "passage:", plan.passageLimit, answer.passages)
      && TopNodes(A.leq, ids, c.scores, "fact:", plan.entityLimit, answer.facts)
      && answer.iterations == c.iterations && answer.converged == c.converged && answer.l1Delta == c.l1Delta
  {
    hide NodeIds, Scores, Best, TopNodes;
    NodeIdsAreEndpoints(triples);
    var ids, scores := NodeIds(triples), Scores(A, plan, triples).value.scores;
    BestIsTopNodes(A, ids, scores, "passage:", plan.passageLimit);
    BestIsTopNodes(A, ids, scores, "fact:", plan.entityLimit);
  }

  lemma BestIsTopNodes<S(!new)>(A: Arith<S>, ids: seq<string>, scores: seq<S>, prefix: string, limit: nat)
    requires TotalOrder(A.leq) && |ids| == |scores| && Distinct(ids)
    ensures TopNodes(A.leq, ids, scores, prefix, limit, Best(A, ids, scores, prefix, limit))
  {
    hide Offers, Sort, IsNode, TotalOrder, Precedes;
    var offers, ranked := Offers(ids, scores, prefix, |ids|), Best(A, ids, scores, prefix, limit);
    BestIsTop(A.leq, offers, limit);
    OffersApart(ids, scores, prefix, |ids|);
    RankedApart(offers, ranked);
    forall i | 0 <= i < |ranked| ensures IsNode(ids, scores, prefix, ranked[i]) {
      assert ranked[i] in multiset(ranked);
      assert ranked[i] in offers;
      OffersAre(ids, scores, prefix, |ids|, ranked[i]);
    }
    forall k | IsNode(ids, scores, prefix, k) && k !in ranked
      ensures |ranked| == limit && forall i :: 0 <= i < |ranked| ==> Precedes(A.leq, ranked[i], k)
    {
      OffersAre(ids, scores, prefix, |ids|, k);
      LeftOutOfTop(A.leq, offers, limit, ranked, k);
    }
  }

  lemma LeftOutOfTop<S(!new)>(leq: (S, S) -> bool, offers: seq<Key<S>>, limit: nat, ranked: seq<Key<S>>, k: Key<S>)
    requires IsTop(leq, offers, limit, ranked) && k in offers && k !in ranked
    ensures |ranked| == limit && forall i :: 0 <= i < |ranked| ==> Precedes(leq, ranked[i], k)
  {
    hide Precedes;
    var all, kept := multiset(offers), multiset(ranked);
    assert k in all && k !in kept && k in all - kept;
    if |ranked| == |offers| {
      assert |kept| == |all|;
      SameSizeMultiset(kept, all);
    }
  }

  lemma SameSizeMultiset<T>(a: multiset<T>, b: multiset<T>)
    requires a <= b && |a| == |b|
    ensures a == b
  {
    assert b == a + (b - a);
    assert |b - a| == 0;
  }

  /** Entries taken from offers with different ids have different ids. */
  lemma RankedApart<S>(offers: seq<Key<S>>, ranked: seq<Key<S>>)
    requires multiset(ranked) <= multiset(offers)
    requires forall x, y :: 0 <= x < y < |offers| ==> offers[x].id != offers[y].id
    ensures forall i, j :: 0 <= i < j < |ranked| ==> ranked[i].id != ranked[j].id
  {
    forall i, j | 0 <= i < j < |ranked| ensures ranked[i].id != ranked[j].id {
      assert ranked[i] in multiset(ranked) && ranked[j] in multiset(ranked);
      var x := MemberAt(offers, ranked[i]);
      var y := MemberAt(offers, ranked[j]);
      if ranked[i].id == ranked[j].id {
        assert x == y;
        TwiceInMultiset(ranked, i, j);
        OnceInMultiset(offers, ranked[i]);
      }
    }
  }

  // ---------- the reply ----------

  /**
    A reply holds the answer and, rank by rank, the object stored in the passages
    section under each passage id and in the facts section under each fact id. A
    failed one comes from the scores, or from the first object that is missing or
    too large, passages first.
   */
  lemma ReplyMeans<S(!new)>(A: Arith<S>, plan: Plan<S>, triples: seq<Triple<S>>, store: Store)
    ensures var r, ranked := PprResult(A, plan, triples, store), PprAnswer(A, plan, triples);
      && (r.Success? ==>
            && ranked == Success(r.value.answer)
            && AllObjects(store, "passages", "passage:", r.value.answer.passages, |r.value.answer.passages|, r.value.passages)
            && AllObjects(store, "facts", "fact:", r.value.answer.facts, |r.value.answer.facts|, r.value.facts))
      && (r.Failure? ==>
            || ranked == Failure(r.error)
            || (ranked.Success?
                && (FirstLack(store, "passages", "passage:", ranked.value.passages, |ranked.value.passages|, r.error)
                    || (FirstLack(store, "facts", "fact:", ranked.value.facts, |ranked.value.facts|, r.error)
                        && forall i :: 0 <= i < |ranked.value.passages| ==>
                             HasObject(store, "passages", "passage:", ranked.value.passages[i].id)))))
  {
    hide PprAnswer, Attach, FirstLack, AllObjects, HasObject;
    var ranked := PprAnswer(A, plan, triples);
    if ranked.Success? {
      AttachMeans(store, "passages", "passage:", ranked.value.passages, |ranked.value.passages|);
      AttachMeans(store, "facts", "fact:", ranked.value.facts, |ranked.value.facts|);
      AttachExactly(store, "passages", "passage:", ranked.value.passages);
    }
  }
}
