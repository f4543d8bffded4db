/** Every counter of a delete's report counts exactly the records that went or changed, in the stores before and after. */
module DeleteReport {
  import opened Text
  import opened Json
  import opened DeleteSpec
  import opened DeleteProofs
  import opened DeleteMeaning
  import opened DeleteOutcome
  import opened DeleteVectors

  /** Nodes of a layer that left. */
  predicate LeftLayer(s: Store, t: Store, k: string, layer: string) {
    k in s.nodes && k !in t.nodes && s.nodes[k].layer == layer
  }

  predicate IsNamedLayer(layer: string) {
    layer == "passage" || layer == "fact" || layer == "entity" || layer == "ontology"
  }

  ghost predicate NodeCountersMean(s: Store, t: Store, q: Request, d: Decision, c: Counts) {
    && c.removedPassageNodes == |set k | k in s.nodes && LeftLayer(s, t, k, "passage")|
    && c.removedFactNodes == |set k | k in s.nodes && LeftLayer(s, t, k, "fact")|
    && c.removedEntityNodes == |set k | k in s.nodes && LeftLayer(s, t, k, "entity")|
    && c.removedOntologyNodes == |set k | k in s.nodes && LeftLayer(s, t, k, "ontology")|
    && c.removedOtherNodes == |set k | k in s.nodes && k !in t.nodes && !IsNamedLayer(s.nodes[k].layer)|
    && c.prunedSharedNodes == |set k | k in s.nodes && k in t.nodes && Reached(s.nodes[k], q)|
    && c.prunedOntologyNodes == |set k | k in s.nodes && k in t.nodes && k in d.ontologyKeys|
  }

  ghost predicate SnapshotCountersMean(s: Store, t: Store, q: Request, d: Decision, c: Counts) {
    var facts, schemas := SnapshotItems(s, q.corpusId, "facts"), SnapshotItems(s, q.corpusId, "schemas");
    && |SnapshotItems(s, q.corpusId, "passages")| == |SnapshotItems(t, q.corpusId, "passages")| + c.removedPassages
    && |facts| == |SnapshotItems(t, q.corpusId, "facts")| + c.removedFacts
    && c.prunedSharedFacts
       == |set i | 0 <= i < |facts|
             && Cites(facts[i], "sourceDocumentIds", q.documentId) && !FactGoes(facts[i], q, d.removedPassages)|
    && c.prunedSchemas == |set i | 0 <= i < |schemas| && SchemaReached(schemas[i], q, d.removedFacts, d.touched)|
    && c.schemaFrequencyAdjusted
       == |set i | 0 <= i < |schemas|
             && SchemaReached(schemas[i], q, d.removedFacts, d.touched) && Counted(schemas[i], "frequency")|
  }

  ghost predicate RestCountersMean(s: Store, t: Store, q: Request, c: Counts) {
    && c.removedEdges == |set k | k in s.edges && k !in t.edges|
    && c.removedVectors == |set k | k in s.vectors && k !in t.vectors|
    && c.rekeyedVectors == |set k | k in s.vectors && k in t.vectors && NamedBy(s.vectors[k], q)|
    && c.removedLexicalPassages == |set k | k in s.passages && k !in t.passages|
  }

  // ---------- nodes ----------

  /** The keys of each fate, told by the store before and the store after. */
  lemma FateTold(s: Store, q: Request, orders: Orders, k: string)
    requires k in s.nodes
    ensures var t, d := Delete(s, q, orders), Decide(s, q);
      && (k in Fated(s.nodes, q, d, Owned) <==>
            k !in t.nodes && s.nodes[k].layer != "entity" && s.nodes[k].layer != "ontology")
      && (k in Fated(s.nodes, q, d, Shared) <==> k in t.nodes && Reached(s.nodes[k], q))
      && (k in Unsupported(s.nodes, q, d) <==> k !in t.nodes && s.nodes[k].layer == "ontology")
      && (k in d.ontologyKeys * s.nodes.Keys - Unsupported(s.nodes, q, d) <==> k in t.nodes && k in d.ontologyKeys)
  {
    hide Decide, Delete, NodeGoes, Reached, FinalFate, Support, OntologyRef, SharedRef;
    var n, d, t := s.nodes[k], Decide(s, q), Delete(s, q, orders);
    OntologyKeysStored(s, q, k);
    FinalFateMeans(n, q, d);
    OntologyUnfated(n, q, d);
    ReachedLayer(n, q);
    if n.layer == "entity" {
      EntityUnfated(n, q, d);
    } else {
      FinalNode(s, q, orders, k);
    }
  }

  lemma EntityUnfated(n: Node, q: Request, d: Decision)
    ensures n.layer == "entity" ==> FinalFate(n, q, d) == Untouched
  {
  }

  lemma OrphanKeysTold(s: Store, q: Request, orders: Orders)
    ensures var t, g := Delete(s, q, orders), GraphAfter(s.nodes, s.edges, q, Decide(s, q));
      OrphanKeys(q, g.orphans) == set k | k in s.nodes && LeftLayer(s, t, k, "entity")
  {
    hide Decide, Delete, GraphAfter;
    var t, d := Delete(s, q, orders), Decide(s, q);
    var orphans := GraphAfter(s.nodes, s.edges, q, d).orphans;
    DecideKeys(s, q);
    DeleteGraph(s, q, orders);
    forall k ensures k in OrphanKeys(q, orphans) <==> k in s.nodes && LeftLayer(s, t, k, "entity") {
      if k in s.nodes && s.nodes[k].layer == "entity" {
        EntityLeaves(s.nodes, s.edges, q, d, k);
      }
      if k in OrphanKeys(q, orphans) {
        var x :| x in orphans && StoreKey(q.corpusId, x) == k;
        OrphansAre(s.nodes, s.edges, q, d, x);
      }
    }
  }

  lemma NodeReport(s: Store, q: Request, orders: Orders)
    ensures NodeCountersMean(s, Delete(s, q, orders), q, Decide(s, q), Report(s, q, orders))
  {
    hide Decide, Delete, GraphAfter, Fated, Unsupported, OrphanKeys, Reached, SnapshotItems, PassagesKept, FactsAfter, SharedFacts,
      AffectedSchemas, AdjustedSchemas, DroppedVectors, RekeyedVectors, Rekey;
    var t, d := Delete(s, q, orders), Decide(s, q);
    var owned, shared, unsupported := Fated(s.nodes, q, d, Owned), Fated(s.nodes, q, d, Shared), Unsupported(s.nodes, q, d);
    var orphans := GraphAfter(s.nodes, s.edges, q, d).orphans;
    OrphanKeysTold(s, q, orders);
    OrphanKeysSize(q, orphans);
    FatesStored(s.nodes, q, d);
    forall k | k in s.nodes
      ensures k in owned <==> k !in t.nodes && s.nodes[k].layer != "entity" && s.nodes[k].layer != "ontology"
      ensures k in shared <==> k in t.nodes && Reached(s.nodes[k], q)
      ensures k in unsupported <==> k !in t.nodes && s.nodes[k].layer == "ontology"
      ensures k in d.ontologyKeys * s.nodes.Keys - unsupported <==> k in t.nodes && k in d.ontologyKeys
    {
      FateTold(s, q, orders, k);
    }
    var passageNodes, factNodes := OfLayer(s.nodes, owned, "passage"), OfLayer(s.nodes, owned, "fact");
    assert passageNodes == set k | k in s.nodes && LeftLayer(s, t, k, "passage");
    assert factNodes == set k | k in s.nodes && LeftLayer(s, t, k, "fact");
    assert unsupported == set k | k in s.nodes && LeftLayer(s, t, k, "ontology");
    assert owned - passageNodes - factNodes == set k | k in s.nodes && k !in t.nodes && !IsNamedLayer(s.nodes[k].layer);
    assert shared == set k | k in s.nodes && k in t.nodes && Reached(s.nodes[k], q);
    assert d.ontologyKeys * s.nodes.Keys - unsupported == set k | k in s.nodes && k in t.nodes && k in d.ontologyKeys;
  }

  lemma FatesStored(nodes: map<string, Node>, q: Request, d: Decision)
    ensures Fated(nodes, q, d, Owned) <= nodes.Keys && Fated(nodes, q, d, Shared) <= nodes.Keys
      && Unsupported(nodes, q, d) <= nodes.Keys
  {
    hide FinalFate, Support;
  }

  // ---------- the snapshot ----------

  /** One more position counts or it does not. */
  lemma OneMore(before: set<int>, now: set<int>, k: int, counts: bool)
    requires k !in before
    requires now == if counts then before + {k} else before
    ensures |now| == |before| + (if counts then 1 else 0)
  {
  }

  lemma {:induction false} SharedFactsTold(facts: seq<Json>, q: Request, gone: set<string>, k: nat)
    requires k <= |facts|
    ensures SharedFacts(facts, q, gone, k)
      == |set i | 0 <= i < k && Cites(facts[i], "sourceDocumentIds", q.documentId) && !FactGoes(facts[i], q, gone)|
  {
    hide FactAfter, Cites, FactGoes;
    if k > 0 {
      SharedFactsTold(facts, q, gone, k - 1);
      FactMeans(facts[k - 1], q, gone);
      var before := set i | 0 <= i < k - 1 && Cites(facts[i], "sourceDocumentIds", q.documentId) && !FactGoes(facts[i], q, gone);
      var now := set i | 0 <= i < k && Cites(facts[i], "sourceDocumentIds", q.documentId) && !FactGoes(facts[i], q, gone);
      OneMore(before, now, k - 1, FactAfter(facts[k - 1], q, gone).Pruned?);
    }
  }

  lemma {:induction false} AffectedTold(schemas: seq<Json>, q: Request, d: Decision, k: nat)
    requires k <= |schemas|
    ensures AffectedSchemas(schemas, q, d, k) == |set i | 0 <= i < k && SchemaReached(schemas[i], q, d.removedFacts, d.touched)|
  {
    hide SchemaAffected, SchemaReached;
    if k > 0 {
      AffectedTold(schemas, q, d, k - 1);
      ReachedIsAffected(schemas[k - 1], q, d.removedFacts, d.touched);
      var before := set i | 0 <= i < k - 1 && SchemaReached(schemas[i], q, d.removedFacts, d.touched);
      var now := set i | 0 <= i < k && SchemaReached(schemas[i], q, d.removedFacts, d.touched);
      OneMore(before, now, k - 1, SchemaAffected(schemas[k - 1], q, d.removedFacts, d.touched));
    }
  }

  lemma {:induction false} AdjustedTold(schemas: seq<Json>, q: Request, d: Decision, k: nat)
    requires k <= |schemas|
    ensures AdjustedSchemas(schemas, q, d, k)
      == |set i | 0 <= i < k && SchemaReached(schemas[i], q, d.removedFacts, d.touched) && Counted(schemas[i], "frequency")|
  {
    hide SchemaAffected, SchemaReached, Counted, SafeCount;
    if k > 0 {
      AdjustedTold(schemas, q, d, k - 1);
      ReachedIsAffected(schemas[k - 1], q, d.removedFacts, d.touched);
      CountedIsSafe(schemas[k - 1], "frequency");
      var before := set i | 0 <= i < k - 1 && SchemaReached(schemas[i], q, d.removedFacts, d.touched)
        && Counted(schemas[i], "frequency");
      var now := set i | 0 <= i < k && SchemaReached(schemas[i], q, d.removedFacts, d.touched) && Counted(schemas[i], "frequency");
      OneMore(before, now, k - 1, Adjusted(schemas[k - 1], q, d));
    }
  }

  lemma {:induction false} PassagesShrink(passages: seq<Json>, q: Request)
    ensures |PassagesKept(passages, q)| <= |passages|
  {
    if passages != [] {
      PassagesShrink(passages[1..], q);
    }
  }

  lemma {:induction false} FactsShrink(facts: seq<Json>, q: Request, gone: set<string>, k: nat)
    requires k <= |facts|
    ensures |FactsAfter(facts, q, gone, k)| <= k
  {
    hide FactAfter;
    if k > 0 {
      FactsShrink(facts, q, gone, k - 1);
    }
  }

  lemma SnapshotReport(s: Store, q: Request, orders: Orders)
    ensures SnapshotCountersMean(s, Delete(s, q, orders), q, Decide(s, q), Report(s, q, orders))
  {
    hide Decide, Delete, GraphAfter, Fated, Unsupported, SnapshotItems, PassagesKept, FactsAfter, SharedFacts, OfLayer,
      SchemasAfter,
      AffectedSchemas, AdjustedSchemas, DroppedVectors, RekeyedVectors, Rekey, Cites, FactGoes, SchemaReached, Counted;
    var d, facts, schemas := Decide(s, q), SnapshotItems(s, q.corpusId, "facts"), SnapshotItems(s, q.corpusId, "schemas");
    SectionsAfter(s, q, orders);
    PassagesShrink(SnapshotItems(s, q.corpusId, "passages"), q);
    FactsShrink(facts, q, d.removedPassages, |facts|);
    SharedFactsTold(facts, q, d.removedPassages, |facts|);
    AffectedTold(schemas, q, d, |schemas|);
    AdjustedTold(schemas, q, d, |schemas|);
  }

  // ---------- the other stores ----------

  /** The records missing from a part of a map are as many as the sizes differ. */
  lemma MissingSize<V>(was: map<string, V>, now: map<string, V>)
    requires now.Keys <= was.Keys
    ensures |was| == |now| + |set k | k in was && k !in now|
  {
    var missing := set k | k in was && k !in now;
    DisjointSizes(now.Keys, missing);
    assert was.Keys == now.Keys + missing;
    assert |was.Keys| == |was| && |now.Keys| == |now|;
  }

  lemma RestReport(s: Store, q: Request, orders: Orders)
    ensures RestCountersMean(s, Delete(s, q, orders), q, Report(s, q, orders))
  {
    hide Decide, Delete, Report, Severed, Abandoned, NamedBy;
    var t := Delete(s, q, orders);
    VectorCounters(s, q, orders);
    CountersMatch(s, q, orders);
    forall k ensures k in t.edges ==> k in s.edges {
      EdgesMean(s, q, orders, k);
    }
    forall k ensures k in t.passages ==> k in s.passages {
      LexicalMeans(s, q, orders, k);
    }
    MissingSize(s.edges, t.edges);
    MissingSize(s.passages, t.passages);
  }

  /** Every counter of the report. */
  lemma ReportMeans(s: Store, q: Request, orders: Orders)
    ensures var t, d, c := Delete(s, q, orders), Decide(s, q), Report(s, q, orders);
      NodeCountersMean(s, t, q, d, c) && SnapshotCountersMean(s, t, q, d, c) && RestCountersMean(s, t, q, c)
  {
    hide Decide, Delete, Report, NodeCountersMean, SnapshotCountersMean, RestCountersMean;
    NodeReport(s, q, orders);
    SnapshotReport(s, q, orders);
    RestReport(s, q, orders);
  }
}
