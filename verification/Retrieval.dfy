/**
  A ranking request end to end: the counts and the stored objects both come from
  the catalog, and what is answered is what scans of the state would answer.
 */
module Retrieval {
  import opened Wrappers
  import opened Deadline
  import opened Accounting
  import opened Text
  import opened StableSort
  import opened Json
  import opened Graph
  import opened Ranking
  import opened PprSpec
  import opened Materialize
  import opened Admission
  import opened PprKernel
  import opened Catalog

  /** The objects that the catalog's lookup finds for one corpus. */
  function IndexedStore<S>(state: Stored<S>, index: Index, corpusId: string, encodedBytes: Json -> nat): Store {
    Store((section, id) => Lookup(state, index, corpusId, section, id), encodedBytes)
  }

  /** The objects that a scan of the stored sections finds. */
  function ScannedStore<S>(state: Stored<S>, corpusId: string, encodedBytes: Json -> nat): Store {
    Store((section, id) => Scan(state.snapshots, corpusId, section, id), encodedBytes)
  }

  lemma {:induction false} AttachAgrees<S>(a: Store, b: Store, section: string, prefix: string, ranked: seq<Key<S>>, j: nat)
    requires j <= |ranked| && a.encodedBytes == b.encodedBytes
    requires forall i :: 0 <= i < |ranked| && StartsWith(ranked[i].id, prefix) ==>
      (a.item)(section, StripPrefix(ranked[i].id, prefix)) == (b.item)(section, StripPrefix(ranked[i].id, prefix))
    ensures Attach(a, section, prefix, ranked, j) == Attach(b, section, prefix, ranked, j)
  {
    if j > 0 {
      AttachAgrees(a, b, section, prefix, ranked, j - 1);
    }
  }

  // ---------- the ids of a ranking ----------

  predicate AllFrom<S>(ranked: seq<Key<S>>, ids: seq<string>) {
    forall i :: 0 <= i < |ranked| ==> ranked[i].id in ids
  }

  lemma {:induction false} OffersFrom<S>(ids: seq<string>, scores: seq<S>, prefix: string, j: nat)
    requires j <= |ids| == |scores|
    ensures AllFrom(Offers(ids, scores, prefix, j), ids)
  {
    if j > 0 {
      OffersFrom(ids, scores, prefix, j - 1);
    }
  }

  lemma BestFrom<S(!new)>(A: Arith<S>, ids: seq<string>, scores: seq<S>, prefix: string, limit: nat)
    requires |ids| == |scores|
    ensures AllFrom(Best(A, ids, scores, prefix, limit), ids)
  {
    hide Sort, Offers, ByRank, RankLeq;
    var offers := Offers(ids, scores, prefix, |ids|);
    var sorted := Sort(ByRank(A.leq), offers);
    OffersFrom(ids, scores, prefix, |ids|);
    SortIsPermutation(ByRank(A.leq), offers);
    forall i | 0 <= i < |Take(sorted, limit)| ensures sorted[i].id in ids {
      assert sorted[i] in multiset(sorted);
      var k := MemberAt(offers, sorted[i]);
    }
  }

  /** Every ranked id is an endpoint of the graph. */
  lemma RankedFrom<S(!new)>(A: Arith<S>, plan: Plan<S>, triples: seq<Triple<S>>)
    ensures var r := PprAnswer(A, plan, triples);
      r.Success? ==> AllFrom(r.value.passages, NodeIds(triples)) && AllFrom(r.value.facts, NodeIds(triples))
  {
    hide Best, NodeIds, Scores;
    if triples != [] && Scores(A, plan, triples).Success? {
      var scores := Scores(A, plan, triples).value.scores;
      BestFrom(A, NodeIds(triples), scores, "passage:", plan.passageLimit);
      BestFrom(A, NodeIds(triples), scores, "fact:", plan.entityLimit);
    }
  }

  /** Endpoints of a catalogued graph, and what is left of them without a prefix, are short. */
  lemma EndpointAddressable<S(!new)>(A: Arith<S>, state: Stored<S>, corpusId: string, id: string, prefix: string)
    requires forall j :: 0 <= j < |state.edges| ==> EdgeOk(state.nodes, state.edges[j])
    requires id in NodeIds(Canonical(A, state.edges, corpusId)) && StartsWith(id, prefix)
    ensures Addressable(StripPrefix(id, prefix))
  {
    CanonicalEndpoint(A, state.edges, corpusId, id);
    hide NodeIds, Canonical, Utf8;
    EndpointHasEdge(state.edges, corpusId, id);
    var i :| 0 <= i < |state.edges| && (state.edges[i].sourceNodeId == id || state.edges[i].targetNodeId == id);
    assert EdgeOk(state.nodes, state.edges[i]);
    var rest := StripPrefix(id, prefix);
    assert id == prefix + rest;
    Utf8Concat(prefix, rest);
  }

  lemma CanonicalEndpoint<S(!new)>(A: Arith<S>, values: seq<GraphEdge<S>>, corpusId: string, id: string)
    requires id in NodeIds(Canonical(A, values, corpusId))
    ensures id in Endpoints(Triples(OfCorpus(values, corpusId)))
  {
    hide NodeIds, Sort;
    var triples, plain := Canonical(A, values, corpusId), Triples(OfCorpus(values, corpusId));
    NodeIdsAreEndpoints(triples);
    SortIsPermutation((a, b) => TripleLeq(A.leq, a, b), plain);
    EndpointsOfPermutation(plain, triples);
  }

  // ---------- the request ----------

  /** Over a catalogued state the reply is the same whether objects are looked up or scanned for. */
  lemma SameReply<S(!new)>(A: Arith<S>, plan: Plan<S>, state: Stored<S>, index: Index, endpoints: map<string, nat>,
                           edges: map<string, nat>, corpusId: string, encodedBytes: Json -> nat)
    requires Describes(state, index, endpoints, edges) && AddressableState(state) && DistinctCorpora(state.snapshots)
    requires Addressable(corpusId)
    ensures var triples := Canonical(A, state.edges, corpusId);
      PprResult(A, plan, triples, IndexedStore(state, index, corpusId, encodedBytes))
      == PprResult(A, plan, triples, ScannedStore(state, corpusId, encodedBytes))
  {
    var triples := Canonical(A, state.edges, corpusId);
    var indexed, scanned := IndexedStore(state, index, corpusId, encodedBytes), ScannedStore(state, corpusId, encodedBytes);
    RankedFrom(A, plan, triples);
    var ranked := PprAnswer(A, plan, triples);
    hide PprAnswer, Canonical, NodeIds, Addressable, AddressableState, Attach, Lookup, Scan;
    if ranked.Success? {
      SameAttachments(A, state, index, endpoints, edges, corpusId, encodedBytes, "passages", "passage:", ranked.value.passages);
      SameAttachments(A, state, index, endpoints, edges, corpusId, encodedBytes, "facts", "fact:", ranked.value.facts);
    }
  }

  lemma SameAttachments<S(!new)>(A: Arith<S>, state: Stored<S>, index: Index, endpoints: map<string, nat>,
                                 edges: map<string, nat>, corpusId: string, encodedBytes: Json -> nat,
                                 section: string, prefix: string, ranked: seq<Key<S>>)
    requires Describes(state, index, endpoints, edges) && AddressableState(state) && DistinctCorpora(state.snapshots)
    requires Addressable(corpusId) && AllFrom(ranked, NodeIds(Canonical(A, state.edges, corpusId)))
    ensures Attach(IndexedStore(state, index, corpusId, encodedBytes), section, prefix, ranked, |ranked|)
         == Attach(ScannedStore(state, corpusId, encodedBytes), section, prefix, ranked, |ranked|)
  {
    hide NodeIds, Canonical, AddressableState, Addressable, Attach, Lookup, Scan;
    var a, b := IndexedStore(state, index, corpusId, encodedBytes), ScannedStore(state, corpusId, encodedBytes);
    forall i | 0 <= i < |ranked| && StartsWith(ranked[i].id, prefix)
      ensures (a.item)(section, StripPrefix(ranked[i].id, prefix)) == (b.item)(section, StripPrefix(ranked[i].id, prefix))
    {
      EndpointAddressable(A, state, corpusId, ranked[i].id, prefix);
      LookupIsScan(state, index, endpoints, edges, corpusId, section, StripPrefix(ranked[i].id, prefix));
    }
    AttachAgrees(a, b, section, prefix, ranked, |ranked|);
  }

  /**
    A ranking request over a catalogued state: admitted on the catalog's counts,
    answered with the catalog's objects. It is refused by its caps, stopped with
    the clock at its deadline, or answers what the scans specify.
   */
  method RankCorpus<S(0, !new)>(catalog: BoundedCatalog, state: Stored<S>, A: Arith<S>, plan: Plan<S>, corpusId: string,
                                encodedBytes: Json -> nat, deadline: ExecutionDeadline)
    returns (r: Result<Response<S>, ExecutionFailure>)
    requires catalog.ready && catalog.Current(state) && AddressableState(state) && DistinctCorpora(state.snapshots)
    requires Addressable(corpusId) && TotalOrder(A.leq) && deadline.Valid() && deadline.completedUnits == 0
    modifies deadline, deadline.mono
    ensures var own := OfCorpus(state.edges, corpusId);
      var n, m := |Endpoints(Triples(own))|, |own|;
      && (!Admitted(plan, n, m) ==> r == Failure(ExecutionFailure(ResourceLimit, NO_WORK)))
      && (Admitted(plan, n, m) ==>
            || (r.Failure? && TimedOut(r.error, deadline.Expired()))
            || Answers(A, plan, state.edges, corpusId, n, m, ScannedStore(state, corpusId, encodedBytes), r))
      && (Admitted(plan, n, m) && deadline.InTime(deadline.calls) ==>
            Answers(A, plan, state.edges, corpusId, n, m, ScannedStore(state, corpusId, encodedBytes), r))
  {
    var index, nodes, edges := catalog.indices, catalog.endpointCounts, catalog.edgeCounts;
    CatalogAdmitsRanking(state, index, nodes, edges, corpusId);
    SameReply(A, plan, state, index, nodes, edges, corpusId, encodedBytes);
    hide Describes, AddressableState, Addressable, Admitted, PprResult, Canonical, TotalOrder, Endpoints, OfCorpus,
      ExecutionDeadline.Valid, ExecutionDeadline.Expired, ExecutionDeadline.InTime, Triples, DistinctCorpora;
    r := ExecutePpr(A, plan, state.edges, corpusId, CountOf(nodes, corpusId), CountOf(edges, corpusId),
      IndexedStore(state, index, corpusId, encodedBytes), deadline);
  }
}
