/** Three concrete stores on which a delete does more, or less, than its short description says. */
module DeleteExamples {
  import opened Wrappers
  import opened Text
  import opened Json
  import opened Graph
  import opened DeleteSpec
  import opened DeleteJson
  import opened DeleteProofs
  import opened DeleteRounds
  import opened DeleteMeaning
  import opened DeleteOutcome
  import opened DeleteVectors

  // ---------- a key that two corpora share ----------

  const LISTED_SCHEMA := Obj(map["schemaId" := Str("x"), "sourceDocumentIds" := Arr([Str("d")])])
  const FOREIGN_NODE := Node("x", "a:schema", "ontology", Obj(map[]), "")
  const SHARED_KEY: string := "a:schema:x"
  const SHARING_STORE := Store(
    map[SHARED_KEY := FOREIGN_NODE], map[], map[], map[], map[],
    map["a" := Obj(map["corpusId" := Str("a"), "schemas" := Arr([LISTED_SCHEMA])])])

  /**
    The mirror of schema `x` of corpus `a` has the same key as node `x` of corpus
    `a:schema`, so deleting a document of the one removes the node of the other.
    `ColonFreeCorporaSuffice` rules this out for corpora without a colon.
   */
  lemma ForeignNodeRemoved(orders: Orders)
    ensures var q := Request("a", "d", "now");
      && SHARED_KEY in SHARING_STORE.nodes && SHARED_KEY == StoreKey(FOREIGN_NODE.corpusId, FOREIGN_NODE.nodeId)
      && SHARING_STORE.nodes[SHARED_KEY].corpusId != q.corpusId
      && IsSaved(SHARING_STORE) && !NoForeignKeys(SHARING_STORE.nodes, q.corpusId)
      && SHARED_KEY !in Delete(SHARING_STORE, q, orders).nodes
      && !OthersUnchanged(SHARING_STORE, Delete(SHARING_STORE, q, orders), q.corpusId)
  {
    hide Decide, GraphAfter, OthersUnchanged, Rekey, NodeAfter, VectorsAfter, DroppedVectors, PassagesAfter, SnapshotsAfter;
    var s, q := SHARING_STORE, Request("a", "d", "now");
    var d, t := Decide(s, q), Delete(s, q, orders);
    ForeignNodeListed(s, q);
    ForeignNodeUnsupported(q, d);
    forall k | k in t.nodes ensures k != SHARED_KEY {
      NodesAreOld(s.nodes, s.edges, q, d, k);
    }
    RemovedIsChanged(s, t, q.corpusId, SHARED_KEY);
  }

  lemma ForeignNodeUnsupported(q: Request, d: Decision)
    requires q == Request("a", "d", "now") && SHARED_KEY in d.ontologyKeys
    ensures NodeAfter(SHARED_KEY, FOREIGN_NODE, q, d).None?
    ensures SHARED_KEY == StoreKey(FOREIGN_NODE.corpusId, FOREIGN_NODE.nodeId)
    ensures !NoForeignKeys(SHARING_STORE.nodes, "a")
  {
    assert SHARED_KEY == StoreKey("a", "schema:x");
    StoreKeyPrefix("a", "schema:x");
    assert SHARED_KEY in SHARING_STORE.nodes;
    assert Get(FOREIGN_NODE.ref, "sourceDocumentIds").None? && SchemaIdOf(FOREIGN_NODE).None?;
  }

  lemma RemovedIsChanged(s: Store, t: Store, corpusId: string, key: string)
    requires key in s.nodes && s.nodes[key].corpusId != corpusId && key !in t.nodes
    ensures !OthersUnchanged(s, t, corpusId)
  {
  }

  lemma ForeignNodeListed(s: Store, q: Request)
    requires s == SHARING_STORE && q == Request("a", "d", "now")
    ensures SHARED_KEY in Decide(s, q).ontologyKeys
  {
    hide Decide, SchemaPost, FactPost, Needed;
    var d := Decide(s, q);
    DecisionParts(s, q);
    ListedSchema(s, q, d);
    hide SchemaAffected, NamesDocument;
    SchemaPostHas([LISTED_SCHEMA], q, d.removedFacts, d.touched, d.needed, 1, 0);
    assert MirrorsPost(SHARED_KEY, q, d.schemaPost);
    assert SHARED_KEY in s.nodes;
  }

  lemma ListedSchema(s: Store, q: Request, d: Decision)
    requires s == SHARING_STORE && q == Request("a", "d", "now")
    ensures SnapshotItems(s, "a", "schemas") == [LISTED_SCHEMA]
    ensures SchemaAffected(LISTED_SCHEMA, q, d.removedFacts, d.touched) && GetStr(LISTED_SCHEMA, "schemaId") == Some("x")
    ensures SHARED_KEY == StoreKey("a", "schema:" + "x")
  {
    assert Str("d") in [Str("d")];
    assert Lists(LISTED_SCHEMA, "sourceDocumentIds", "d");
  }

  // ---------- an entity that only loses a plain edge ----------

  const OWNED_PASSAGE := Node("passage:p", "c", "passage", Obj(map["sourceDocumentIds" := Arr([Str("d")])]), "")
  const ORPHAN := Node("entity:a", "c", "entity", Null, "")
  const BYSTANDER := Node("entity:b", "c", "entity", Null, "")
  const MENTION: Edge := GraphEdge("e1", "c", "passage:p", "entity:a", "entity_mention", 1.0, None)
  const PLAIN: Edge := GraphEdge("e2", "c", "entity:a", "entity:b", "related", 1.0, None)
  const SMALL_NODES: map<string, Node> := map["c:passage:p" := OWNED_PASSAGE, "c:entity:a" := ORPHAN, "c:entity:b" := BYSTANDER]
  const SMALL_EDGES: map<string, Edge> := map["c:e1" := MENTION, "c:e2" := PLAIN]

  const SMALL_STORE := Store(SMALL_NODES, SMALL_EDGES, map[], map[], map[], map[])

  /**
    Entity `b` loses its only edge when the orphan `a` goes, is mentioned by
    nothing afterwards, and still survives: it was never a candidate.
   */
  lemma BystanderSurvives(orders: Orders)
    ensures var q := Request("c", "d", "now");
      var t := Delete(SMALL_STORE, q, orders);
      && IsSaved(SMALL_STORE) && IsEntity(SMALL_NODES, q, "entity:b")
      && "c:e2" in SMALL_EDGES && "c:e2" !in t.edges && t.edges == map[]
      && StoreKey("c", "entity:b") in t.nodes && !IsSupported(t.edges, q, "entity:b")
      && !RuleApplies(SMALL_NODES, SMALL_EDGES, q, Decide(SMALL_STORE, q), "entity:b")
  {
    hide Decide, Rekey, VectorsAfter, DroppedVectors, PassagesAfter, SnapshotsAfter, GraphAfter, IsSupported, RuleApplies,
      IsEntity, IsSaved;
    var q := Request("c", "d", "now");
    SmallIsSaved();
    SmallDecision(q);
    SmallGraph(q, Decide(SMALL_STORE, q));
    OrphanRuleExact(SMALL_STORE, q, orders, "entity:b");
  }

  lemma SmallIsSaved()
    ensures IsSaved(SMALL_STORE)
  {
    hide GetStr;
    assert StoreKey("c", "passage:p") == "c:passage:p" && StoreKey("c", "entity:a") == "c:entity:a";
    assert StoreKey("c", "entity:b") == "c:entity:b" && StoreKey("c", "e1") == "c:e1" && StoreKey("c", "e2") == "c:e2";
  }

  /** Nothing in the store is a fact, a schema or an ontology node. */
  lemma SmallDecision(q: Request)
    requires q == Request("c", "d", "now")
    ensures var d := Decide(SMALL_STORE, q); d.ontologyKeys == {} && d.removedFacts == {}
  {
    assert SnapshotItems(SMALL_STORE, "c", "facts") == [] && SnapshotItems(SMALL_STORE, "c", "schemas") == [];
    hide RemovedPassages, Needed;
  }

  lemma SmallGraph(q: Request, d: Decision)
    requires q == Request("c", "d", "now") && d.ontologyKeys == {} && d.removedFacts == {}
    ensures var g := GraphAfter(SMALL_NODES, SMALL_EDGES, q, d);
      && g.edges == map[] && StoreKey("c", "entity:b") in g.nodes && !IsSupported(g.edges, q, "entity:b")
    ensures IsEntity(SMALL_NODES, q, "entity:b")
  {
    hide NodesAfter, RemovedIds, EdgesKept, Candidates, Supported, EdgesApart, OrphanKeys, IsSupported;
    SmallNodes(q, d);
    SmallCut(q);
    SmallOrphan(q);
    assert {"entity:a"} - {} == {"entity:a"};
    assert {"passage:p"} + {"entity:a"} == {"passage:p", "entity:a"};
    assert "entity:b"[..7] == "entity:";
  }

  const LEFT_NODES: map<string, Node> := map["c:entity:a" := ORPHAN, "c:entity:b" := BYSTANDER]

  lemma SmallNodes(q: Request, d: Decision)
    requires q == Request("c", "d", "now") && d.ontologyKeys == {}
    ensures NodesAfter(SMALL_NODES, q, d) == LEFT_NODES
    ensures RemovedIds(SMALL_NODES, q, d) == {"passage:p"}
  {
    hide NodeAfter;
    PassageIsOwned(q, d);
    EntitiesStay(q, d);
    assert "c:passage:p" in SMALL_NODES;
    assert "passage:p" in RemovedIds(SMALL_NODES, q, d);
  }

  lemma EntitiesStay(q: Request, d: Decision)
    requires q == Request("c", "d", "now") && d.ontologyKeys == {}
    ensures NodeAfter("c:entity:a", ORPHAN, q, d) == Some(ORPHAN) && NodeAfter("c:entity:b", BYSTANDER, q, d) == Some(BYSTANDER)
  {
  }

  /** The mention goes with its passage, and leaves `a` as the only candidate. */
  lemma SmallCut(q: Request)
    requires q == Request("c", "d", "now")
    ensures EdgesKept(SMALL_EDGES, q, {"passage:p"}, {}) == map["c:e2" := PLAIN]
    ensures Candidates(SMALL_EDGES, LEFT_NODES, q, {"passage:p"}, {}) == {"entity:a"}
  {
    assert Cut(MENTION, q, {"passage:p"}, {}) && !Cut(PLAIN, q, {"passage:p"}, {});
    assert StoreKey("c", "entity:a") == "c:entity:a";
    assert StartsWith("entity:a", "entity:") by {
      assert "entity:a"[..7] == "entity:";
    }
    assert IsEntity(LEFT_NODES, q, "entity:a");
    hide Cut, IsEntity;
    var edges := SMALL_EDGES;
    assert "c:e1" in edges && "entity:a" in Ends(edges["c:e1"]);
  }

  /** Nothing mentions `a` any more, and the plain edge goes with it. */
  lemma SmallOrphan(q: Request)
    requires q == Request("c", "d", "now")
    ensures Supported(map["c:e2" := PLAIN], q, {"entity:a"}) == {}
    ensures EdgesApart(map["c:e2" := PLAIN], q, {"passage:p", "entity:a"}) == map[]
    ensures OrphanKeys(q, {"entity:a"}) == {"c:entity:a"} && StoreKey("c", "entity:b") == "c:entity:b"
    ensures !IsSupported(map[], q, "entity:b")
  {
    assert StoreKey("c", "entity:a") == "c:entity:a";
  }

  lemma PassageIsOwned(q: Request, d: Decision)
    requires q == Request("c", "d", "now") && d.ontologyKeys == {}
    ensures NodeAfter("c:passage:p", OWNED_PASSAGE, q, d).None?
  {
    var ids := GetArray(OWNED_PASSAGE.ref, "sourceDocumentIds");
    assert ids == Some([Str("d")]);
    assert Str("d") in ids.value;
    assert ScanFate(OWNED_PASSAGE, q) == Owned;
  }

  // ---------- a vector that names a document its node does not ----------

  const ELSEWHERE := Node("fact:f", "c", "fact", Obj(map["sourceDocumentIds" := Arr([Str("e")])]), "")
  const STRAY := Vector("fact:f", "c", "fact", [1.0], Obj(map["documentId" := Str("d")]))
  const STRAY_STORE := Store(
    map["c:fact:f" := ELSEWHERE], map[], map["c:fact:f" := STRAY], map["c:fact:f" := [1.0]], map[], map[])

  /**
    A surviving node that still lists a document does not hold a vector by that
    alone: when the node never named the deleted document it is not rewritten, so
    its vector, which did name it, has no home and goes.
   */
  lemma StrayVectorRemoved(orders: Orders)
    requires IsOrders(orders)
    ensures var q := Request("c", "d", "now");
      var t := Delete(STRAY_STORE, q, orders);
      && IsSaved(STRAY_STORE) && NoForeignKeys(STRAY_STORE.nodes, "c") && NamedBy(STRAY, q)
      && "c:fact:f" in t.nodes && CitesFirst(t.nodes["c:fact:f"].ref, "sourceDocumentIds", "e")
      && "c:fact:f" !in t.vectors
  {
    hide Decide, Delete, Left, NamesOther, Rewritten, VectorOutcome;
    var s, q, k := STRAY_STORE, Request("c", "d", "now"), "c:fact:f";
    StrayIsSaved();
    assert s.nodes[k] == ELSEWHERE && s.vectors[k] == STRAY;
    ElsewhereUntouched(s, q, orders);
    VectorsMean(s, q, orders, k);
    StrayHasNoHome(Delete(s, q, orders), q, Decide(s, q));
  }

  lemma StrayIsSaved()
    ensures IsSaved(STRAY_STORE) && NoForeignKeys(STRAY_STORE.nodes, "c")
    ensures CitesFirst(ELSEWHERE.ref, "sourceDocumentIds", "e") && NamedBy(STRAY, Request("c", "d", "now"))
  {
    assert StoreKey("c", "fact:f") == "c:fact:f";
    var items := ELSEWHERE.ref.fields["sourceDocumentIds"].items;
    assert items[0] == Str("e");
  }

  lemma ElsewhereUntouched(s: Store, q: Request, orders: Orders)
    requires s == STRAY_STORE && q == Request("c", "d", "now")
    ensures var t, k := Delete(s, q, orders), "c:fact:f";
      k in t.nodes && t.nodes[k] == ELSEWHERE && !Rewritten(s, q, Decide(s, q), k)
  {
    hide Decide, Delete, NodeGoes;
    OntologyKeysStored(s, q, "c:fact:f");
    assert Str("d") !in [Str("e")];
    assert !Names(ELSEWHERE.ref, "d");
    NodesMean(s, q, orders, "c:fact:f");
  }

  lemma StrayHasNoHome(t: Store, q: Request, d: Decision)
    requires q == Request("c", "d", "now") && !Rewritten(STRAY_STORE, q, d, "c:fact:f")
    requires VectorOutcome(STRAY_STORE, t, q, d, "c:fact:f")
    ensures "c:fact:f" !in t.vectors
  {
    hide Left, Rewritten;
    assert q.corpusId + ":" + "fact:f" == "c:fact:f";
    forall id ensures "fact:f" != "schema:" + id {
      assert ("schema:" + id)[0] == 's';
    }
    assert forall first :: !Home(STRAY_STORE, t, q, d, "fact:f", first);
    assert NamedBy(STRAY, q);
  }
}
