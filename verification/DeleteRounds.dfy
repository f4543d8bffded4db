/**
  Deletes over whole stores: a reported noop changes nothing, a second delete is
  a noop, the snapshot stays closed and the graph keeps mirroring it.
 */
module DeleteRounds {
  import opened Wrappers
  import opened Text
  import opened StableSort
  import opened Json
  import opened DeleteSpec
  import opened DeleteJson
  import opened DeleteProofs

  // ---------- a noop changes nothing ----------

  lemma {:induction false} FilterFull<T>(p: T -> bool, s: seq<T>)
    ensures |Filter(p, s)| <= |s|
    ensures |Filter(p, s)| == |s| ==> Filter(p, s) == s
  {
    if s != [] {
      FilterFull(p, s[1..]);
    }
  }

  lemma {:induction false} FactsAfterFull(facts: seq<Json>, q: Request, removedPassages: set<string>, k: nat)
    requires k <= |facts|
    ensures |FactsAfter(facts, q, removedPassages, k)| <= k
    ensures |FactsAfter(facts, q, removedPassages, k)| == k && SharedFacts(facts, q, removedPassages, k) == 0 ==>
      FactsAfter(facts, q, removedPassages, k) == facts[..k]
  {
    hide FactAfter;
    if k > 0 {
      FactsAfterFull(facts, q, removedPassages, k - 1);
      assert facts[..k] == facts[..k - 1] + [facts[k - 1]];
    }
  }

  lemma {:induction false} NoneAffected(schemas: seq<Json>, q: Request, d: Decision, k: nat)
    requires k <= |schemas| && AffectedSchemas(schemas, q, d, k) == 0
    ensures forall i :: 0 <= i < k ==> !SchemaAffected(schemas[i], q, d.removedFacts, d.touched)
  {
    hide SchemaAffected;
    if k > 0 {
      NoneAffected(schemas, q, d, k - 1);
    }
  }

  lemma SnapshotUnchanged(s: Store, q: Request, d: Decision)
    requires var passages, facts, schemas := SnapshotItems(s, q.corpusId, "passages"),
      SnapshotItems(s, q.corpusId, "facts"), SnapshotItems(s, q.corpusId, "schemas");
      && PassagesKept(passages, q) == passages
      && FactsAfter(facts, q, d.removedPassages, |facts|) == facts
      && SchemasAfter(schemas, q, d.removedFacts, d.touched) == schemas
    ensures SnapshotsAfter(s, q, d) == s.snapshots
  {
    hide PassagesKept, FactsAfter, SchemasAfter;
    if q.corpusId in s.snapshots {
      var v := s.snapshots[q.corpusId];
      SameItems(v, "passages");
      SameItems(v, "facts");
      SameItems(v, "schemas");
    }
  }

  lemma SameItems(v: Json, section: string)
    ensures var items := GetArray(v, section);
      WithItems(v, section, if items.Some? then items.value else []) == v
  {
    if GetArray(v, section).Some? {
      assert v.fields[section := v.fields[section]] == v.fields;
    }
  }

  lemma NoSnapshotChange(s: Store, q: Request, orders: Orders)
    requires Total(Report(s, q, orders)) == 0
    ensures SnapshotsAfter(s, q, Decide(s, q)) == s.snapshots
  {
    hide Decide, PassagesKept, FactsAfter, SharedFacts, AffectedSchemas, SnapshotsAfter, SnapshotItems, Total, Report;
    var d := Decide(s, q);
    var passages, facts := SnapshotItems(s, q.corpusId, "passages"), SnapshotItems(s, q.corpusId, "facts");
    var schemas := SnapshotItems(s, q.corpusId, "schemas");
    SnapshotParts(s, q, orders);
    PassagesFull(passages, q);
    FactsAfterFull(facts, q, d.removedPassages, |facts|);
    assert facts[..|facts|] == facts;
    NoneAffected(schemas, q, d, |schemas|);
    assert SchemasAfter(schemas, q, d.removedFacts, d.touched) == schemas;
    SnapshotUnchanged(s, q, d);
  }

  lemma SnapshotParts(s: Store, q: Request, orders: Orders)
    requires Total(Report(s, q, orders)) == 0
    ensures var d := Decide(s, q);
      var passages, facts := SnapshotItems(s, q.corpusId, "passages"), SnapshotItems(s, q.corpusId, "facts");
      && |passages| <= |PassagesKept(passages, q)| && |facts| <= |FactsAfter(facts, q, d.removedPassages, |facts|)|
      && SharedFacts(facts, q, d.removedPassages, |facts|) == 0
      && AffectedSchemas(SnapshotItems(s, q.corpusId, "schemas"), q, d, |SnapshotItems(s, q.corpusId, "schemas")|) == 0
  {
    hide Decide, GraphAfter, Rekey, PassagesKept, FactsAfter, SharedFacts, AffectedSchemas, AdjustedSchemas, SnapshotsAfter,
      SnapshotItems;
  }

  lemma PassagesFull(passages: seq<Json>, q: Request)
    ensures |PassagesKept(passages, q)| <= |passages|
    ensures |PassagesKept(passages, q)| == |passages| ==> PassagesKept(passages, q) == passages
  {
    FilterFull((p: Json) => !OwnedPassage(p, q), passages);
  }

  lemma NoNodeChange(nodes: map<string, Node>, q: Request, d: Decision, k: string)
    requires Fated(nodes, q, d, Owned) == {} && Fated(nodes, q, d, Shared) == {}
    requires d.ontologyKeys * nodes.Keys - Unsupported(nodes, q, d) == {} && Unsupported(nodes, q, d) == {}
    requires k in nodes
    ensures NodeAfter(k, nodes[k], q, d) == Some(nodes[k])
  {
    hide FinalFate, Support, SharedRef, OntologyRef;
    assert k !in d.ontologyKeys by {
      assert k in d.ontologyKeys ==> k in d.ontologyKeys * nodes.Keys - Unsupported(nodes, q, d);
    }
    assert k !in Fated(nodes, q, d, Owned) && k !in Fated(nodes, q, d, Shared);
  }

  lemma NoGraphChange(nodes: map<string, Node>, edges: map<string, Edge>, q: Request, d: Decision)
    requires Fated(nodes, q, d, Owned) == {} && Fated(nodes, q, d, Shared) == {}
    requires d.ontologyKeys * nodes.Keys - Unsupported(nodes, q, d) == {} && Unsupported(nodes, q, d) == {}
    requires GraphAfter(nodes, edges, q, d).orphans == {}
    requires |edges| <= |GraphAfter(nodes, edges, q, d).edges|
    ensures GraphAfter(nodes, edges, q, d).nodes == nodes && GraphAfter(nodes, edges, q, d).edges == edges
  {
    hide GraphAfter, Fated, Unsupported;
    AllPruned(nodes, edges, q, d);
    NoEdgeChange(nodes, edges, q, d);
  }

  lemma AllPruned(nodes: map<string, Node>, edges: map<string, Edge>, q: Request, d: Decision)
    requires Fated(nodes, q, d, Owned) == {} && Fated(nodes, q, d, Shared) == {}
    requires d.ontologyKeys * nodes.Keys - Unsupported(nodes, q, d) == {} && Unsupported(nodes, q, d) == {}
    requires GraphAfter(nodes, edges, q, d).orphans == {}
    ensures GraphAfter(nodes, edges, q, d).nodes == nodes
  {
    hide Fated, Unsupported, NodeAfter;
    forall k | k in nodes ensures NodeAfter(k, nodes[k], q, d) == Some(nodes[k]) {
      NoNodeChange(nodes, q, d, k);
    }
    assert OrphanKeys(q, {}) == {};
  }

  lemma NoEdgeChange(nodes: map<string, Node>, edges: map<string, Edge>, q: Request, d: Decision)
    requires |edges| <= |GraphAfter(nodes, edges, q, d).edges|
    ensures GraphAfter(nodes, edges, q, d).edges == edges
  {
    hide GraphAfter;
    var after := GraphAfter(nodes, edges, q, d).edges;
    EdgeKeysAreOld(nodes, edges, q, d);
    assert |after.Keys| == |after| && |edges.Keys| == |edges|;
    SameSize(after.Keys, edges.Keys);
    forall k | k in after ensures after[k] == edges[k] {
      EdgesAreOld(nodes, edges, q, d, k);
    }
  }

  lemma SameSize<T>(a: set<T>, b: set<T>)
    requires a <= b && |a| >= |b|
    ensures a == b
  {
    SubsetSize(a, b);
    if x :| x in b && x !in a {
      SubsetSize(a, b - {x});
    }
  }

  lemma NoVectorChange(vectors: map<string, Vector>, q: Request, removedIds: set<string>, rekey: map<string, string>)
    requires DroppedVectors(vectors, q, removedIds, rekey) == {} && RekeyedVectors(vectors, q, removedIds, rekey) == {}
    ensures VectorsAfter(vectors, q, removedIds, rekey) == vectors
  {
    forall k | k in vectors ensures VectorAfter(vectors[k], q, removedIds, rekey) == Some(vectors[k]) {
      assert k !in DroppedVectors(vectors, q, removedIds, rekey) && k !in RekeyedVectors(vectors, q, removedIds, rekey);
    }
  }

  lemma NoLexicalChange(passages: map<string, Passage>, q: Request)
    requires |passages| <= |PassagesAfter(passages, q)|
    ensures PassagesAfter(passages, q) == passages
  {
    var after := PassagesAfter(passages, q);
    assert |after.Keys| == |after| && |passages.Keys| == |passages|;
    SameSize(after.Keys, passages.Keys);
  }

  /** A reported noop leaves every store exactly as it was. */
  lemma NoopChangesNothing(s: Store, q: Request, orders: Orders)
    requires Total(Report(s, q, orders)) == 0
    ensures Delete(s, q, orders) == s
  {
    hide Decide, GraphAfter, Rekey, Fated, Unsupported, DroppedVectors, RekeyedVectors, VectorsAfter, PassagesAfter, SnapshotsAfter,
      Total, Report;
    var d := Decide(s, q);
    var removed, rekey := GraphAfter(s.nodes, s.edges, q, d).allRemoved, Rekey(s.nodes, q, d, orders);
    NoSnapshotChange(s, q, orders);
    NothingFated(s, q, orders);
    TotalParts(s, q, orders);
    NoGraphChange(s.nodes, s.edges, q, d);
    NoVectorChange(s.vectors, q, removed, rekey);
    NoLexicalChange(s.passages, q);
    assert s.values - {} == s.values;
  }

  lemma TotalParts(s: Store, q: Request, orders: Orders)
    requires Total(Report(s, q, orders)) == 0
    ensures var d := Decide(s, q);
      var g, rekey := GraphAfter(s.nodes, s.edges, q, d), Rekey(s.nodes, q, d, orders);
      && DroppedVectors(s.vectors, q, g.allRemoved, rekey) == {} && RekeyedVectors(s.vectors, q, g.allRemoved, rekey) == {}
      && |s.edges| <= |g.edges| && |s.passages| <= |PassagesAfter(s.passages, q)|
  {
    hide Decide, GraphAfter, Rekey, Fated, Unsupported, DroppedVectors, RekeyedVectors, VectorsAfter, PassagesAfter, SnapshotsAfter,
      SharedFacts, AffectedSchemas, AdjustedSchemas, OfLayer, FactsAfter, PassagesKept, SnapshotItems;
  }

  lemma NothingFated(s: Store, q: Request, orders: Orders)
    requires Total(Report(s, q, orders)) == 0
    ensures var d := Decide(s, q);
      && Fated(s.nodes, q, d, Owned) == {} && Fated(s.nodes, q, d, Shared) == {}
      && d.ontologyKeys * s.nodes.Keys - Unsupported(s.nodes, q, d) == {} && Unsupported(s.nodes, q, d) == {}
      && GraphAfter(s.nodes, s.edges, q, d).orphans == {}
  {
    hide Decide, GraphAfter, Rekey, Fated, Unsupported, DroppedVectors, RekeyedVectors, VectorsAfter, PassagesAfter, SnapshotsAfter,
      SharedFacts, AffectedSchemas, AdjustedSchemas, OfLayer, FactsAfter, PassagesKept, SnapshotItems;
    var d, c := Decide(s, q), Report(s, q, orders);
    FateSizes(s.nodes, q, d, c);
  }

  // ---------- a second delete is a noop ----------

  lemma ErasedFate(node: Node, q: Request)
    requires node.corpusId == q.corpusId && node.layer != "entity" ==> q.documentId !in DocIds(node.ref)
    ensures ScanFate(node, q) == Untouched && !NamesDocument(node, q)
  {
    if GetArray(node.ref, "sourceDocumentIds").Some? {
      DocIdsListed(node.ref, q.documentId);
    }
  }

  lemma {:induction false} ErasedFacts(facts: seq<Json>, q: Request, removedPassages: set<string>, k: nat)
    requires k <= |facts| && forall i :: 0 <= i < |facts| ==> !Lists(facts[i], "sourceDocumentIds", q.documentId)
    ensures FactsAfter(facts, q, removedPassages, k) == facts[..k]
    ensures SharedFacts(facts, q, removedPassages, k) == 0 && TouchedSchemas(facts, q, k) == {}
    ensures DroppedFacts(facts, q, removedPassages, k) == {}
  {
    hide Lists;
    if k > 0 {
      ErasedFacts(facts, q, removedPassages, k - 1);
      assert facts[..k] == facts[..k - 1] + [facts[k - 1]];
    }
  }

  lemma {:induction false} ErasedSchemas(schemas: seq<Json>, q: Request, d: Decision, k: nat)
    requires k <= |schemas| && d.removedFacts == {} && d.touched == {} && d.needed == {}
    requires forall i :: 0 <= i < |schemas| && GetStr(schemas[i], "schemaId").Some? ==>
      !Lists(schemas[i], "sourceDocumentIds", q.documentId)
    ensures AffectedSchemas(schemas, q, d, k) == 0 && AdjustedSchemas(schemas, q, d, k) == 0
    ensures SchemaPost(schemas, q, d.removedFacts, d.touched, d.needed, k) == map[]
  {
    hide Lists, GetStr, SafeCount;
    if k > 0 {
      ErasedSchemas(schemas, q, d, k - 1);
      assert !SchemaAffected(schemas[k - 1], q, d.removedFacts, d.touched);
    }
  }

  lemma {:induction false} ErasedPassages(passages: seq<Json>, q: Request)
    requires forall i :: 0 <= i < |passages| ==> !OwnedPassage(passages[i], q)
    ensures PassagesKept(passages, q) == passages
  {
    hide OwnedPassage;
    if passages != [] {
      ErasedPassages(passages[1..], q);
    }
  }

  lemma ErasedDecision(t: Store, q: Request)
    requires Erased(t, q)
    ensures var d := Decide(t, q); d.removedFacts == {} && d.ontologyKeys == {}
    ensures forall k :: k in t.nodes ==> ScanFate(t.nodes[k], q) == Untouched
    ensures var schemas, d := SnapshotItems(t, q.corpusId, "schemas"), Decide(t, q);
      AffectedSchemas(schemas, q, d, |schemas|) == 0 && AdjustedSchemas(schemas, q, d, |schemas|) == 0
  {
    hide Lists, DocIds, OwnedPassage, FactAfter, RemovedPassages, SchemaAffected, SafeCount;
    var d := Decide(t, q);
    var facts, schemas := SnapshotItems(t, q.corpusId, "facts"), SnapshotItems(t, q.corpusId, "schemas");
    forall k | k in t.nodes ensures ScanFate(t.nodes[k], q) == Untouched && !NamesDocument(t.nodes[k], q) {
      ErasedFate(t.nodes[k], q);
    }
    assert forall i :: 0 <= i < |facts| ==> facts[i] in facts;
    assert forall i :: 0 <= i < |schemas| ==> schemas[i] in schemas;
    ErasedFacts(facts, q, d.removedPassages, |facts|);
    assert d.removedFacts == {} && d.touched == {};
    assert Needed(t, q) == {};
    ErasedSchemas(schemas, q, d, |schemas|);
    assert d.schemaPost == map[];
  }

  lemma NoRemovedIds(nodes: map<string, Node>, edges: map<string, Edge>, q: Request, d: Decision)
    requires d.ontologyKeys == {} && d.removedFacts == {}
    requires forall k :: k in nodes ==> ScanFate(nodes[k], q) == Untouched
    ensures var g := GraphAfter(nodes, edges, q, d); g.allRemoved == {} && g.orphans == {} && g.edges == edges
    ensures Fated(nodes, q, d, Owned) == {} && Fated(nodes, q, d, Shared) == {} && Unsupported(nodes, q, d) == {}
  {
    hide ScanFate, CooccurrenceFact;
    var g := GraphAfter(nodes, edges, q, d);
    assert g.removedIds == {};
    assert g.candidates == {};
    assert g.kept == edges;
  }

  lemma ErasedVectors(vectors: map<string, Vector>, q: Request, rekey: map<string, string>)
    requires forall k :: k in vectors && vectors[k].corpusId == q.corpusId ==>
      GetStr(vectors[k].metadata, "documentId") != Some(q.documentId)
    ensures DroppedVectors(vectors, q, {}, rekey) == {} && RekeyedVectors(vectors, q, {}, rekey) == {}
  {
  }

  /** Deleting a document that nothing of the corpus names is a noop. */
  lemma ErasedIsNoop(t: Store, q: Request, orders: Orders)
    requires Erased(t, q)
    ensures Total(Report(t, q, orders)) == 0
  {
    hide Decide, GraphAfter, Rekey, Fated, Unsupported, DroppedVectors, RekeyedVectors, SnapshotsAfter, SharedFacts,
      AffectedSchemas, AdjustedSchemas, FactsAfter, PassagesKept, SnapshotItems, ScanFate, Erased, PassagesAfter, OfLayer;
    var d := Decide(t, q);
    ErasedDecision(t, q);
    NoRemovedIds(t.nodes, t.edges, q, d);
    ErasedStores(t, q, d, Rekey(t.nodes, q, d, orders));
  }

  /** The sections, vectors and lexical passages of an erased store have nothing to change. */
  lemma ErasedStores(t: Store, q: Request, d: Decision, rekey: map<string, string>)
    requires Erased(t, q)
    ensures var passages, facts := SnapshotItems(t, q.corpusId, "passages"), SnapshotItems(t, q.corpusId, "facts");
      && PassagesKept(passages, q) == passages && FactsAfter(facts, q, d.removedPassages, |facts|) == facts
      && SharedFacts(facts, q, d.removedPassages, |facts|) == 0
    ensures DroppedVectors(t.vectors, q, {}, rekey) == {} && RekeyedVectors(t.vectors, q, {}, rekey) == {}
    ensures PassagesAfter(t.passages, q) == t.passages
    ensures OfLayer(t.nodes, {}, "passage") == {} && OfLayer(t.nodes, {}, "fact") == {}
  {
    hide DroppedVectors, RekeyedVectors, FactsAfter, SharedFacts, PassagesKept, SnapshotItems, OwnedPassage, Lists, DocIds;
    var passages, facts := SnapshotItems(t, q.corpusId, "passages"), SnapshotItems(t, q.corpusId, "facts");
    ErasedVectors(t.vectors, q, rekey);
    assert forall i :: 0 <= i < |facts| ==> facts[i] in facts;
    assert forall i :: 0 <= i < |passages| ==> passages[i] in passages;
    ErasedFacts(facts, q, d.removedPassages, |facts|);
    assert facts[..|facts|] == facts;
    ErasedPassages(passages, q);
  }

  /** So a second delete of the same document is a noop and changes nothing, whatever the map orders. */
  lemma SecondDeleteIsNoop(s: Store, q: Request, first: Orders, second: Orders)
    ensures var t := Delete(s, q, first);
      Total(Report(t, q, second)) == 0 && Delete(t, q, second) == t
  {
    hide Delete, Report;
    DeleteErases(s, q, first);
    ErasedIsNoop(Delete(s, q, first), q, second);
    NoopChangesNothing(Delete(s, q, first), q, second);
  }

  // ---------- the snapshot stays closed ----------

  predicate HasId(items: seq<Json>, field: string, id: string) {
    exists i :: 0 <= i < |items| && GetStr(items[i], field) == Some(id)
  }

  /** Every schema has an id, and the facts it lists are stored. */
  ghost predicate SchemasClosed(s: Store, corpusId: string) {
    var facts, schemas := SnapshotItems(s, corpusId, "facts"), SnapshotItems(s, corpusId, "schemas");
    forall c :: c in schemas ==>
      GetStr(c, "schemaId").Some? && forall id :: Lists(c, "factIds", id) ==> HasId(facts, "factId", id)
  }

  /** A stored passage of that id belongs to one of the fact's source documents. */
  ghost predicate Grounds(passages: seq<Json>, fact: Json, id: string) {
    exists i :: 0 <= i < |passages| && GetStr(passages[i], "passageId") == Some(id) && SourceOf(fact, passages[i])
  }

  predicate SourceOf(fact: Json, passage: Json) {
    var document := DocumentOf(Get(passage, "metadata"));
    document.Some? && Lists(fact, "sourceDocumentIds", document.value)
  }

  /** The passages every fact lists are stored and belong to its source documents. */
  ghost predicate FactsGrounded(s: Store, corpusId: string) {
    var passages, facts := SnapshotItems(s, corpusId, "passages"), SnapshotItems(s, corpusId, "facts");
    forall f :: f in facts ==> forall id :: Lists(f, "passageIds", id) ==> Grounds(passages, f, id)
  }

  lemma DecisionSets(s: Store, q: Request)
    ensures var passages, facts, d := SnapshotItems(s, q.corpusId, "passages"), SnapshotItems(s, q.corpusId, "facts"), Decide(s, q);
      && OwnedPassageIds(passages, q, |passages|) <= d.removedPassages
      && DroppedFacts(facts, q, d.removedPassages, |facts|) <= d.removedFacts
  {
    hide OwnedPassageIds, DroppedFacts, NodeFacts, FactPost, SchemaPost, OntologyKeys, Needed;
  }

  /** A listed fact that was not removed is still stored. */
  lemma ListedFactStays(facts: seq<Json>, q: Request, removedPassages: set<string>, id: string)
    requires HasId(facts, "factId", id) && id !in DroppedFacts(facts, q, removedPassages, |facts|)
    ensures HasId(FactsAfter(facts, q, removedPassages, |facts|), "factId", id)
  {
    hide FactAfter;
    var i :| 0 <= i < |facts| && GetStr(facts[i], "factId") == Some(id);
    DroppedFactsMembers(facts, q, removedPassages, |facts|, id);
    var v := FactNow(facts[i], q, removedPassages);
    FactsAfterMembers(facts, q, removedPassages, |facts|, v);
    assert Becomes(facts[i], q, removedPassages, v);
    var after := FactsAfter(facts, q, removedPassages, |facts|);
    var j :| 0 <= j < |after| && after[j] == v;
    FactIdKept(facts[i], q, removedPassages);
  }

  /** What a fact that is not dropped becomes. */
  function FactNow(fact: Json, q: Request, removedPassages: set<string>): Json {
    match FactAfter(fact, q, removedPassages)
    case Kept => fact
    case Pruned(pruned) => pruned
    case Dropped => Null
  }

  lemma FactIdKept(fact: Json, q: Request, removedPassages: set<string>)
    requires !FactAfter(fact, q, removedPassages).Dropped?
    ensures GetStr(FactNow(fact, q, removedPassages), "factId") == GetStr(fact, "factId")
  {
    if FactAfter(fact, q, removedPassages).Pruned? {
      FactAfterLists(fact, q, removedPassages, "");
    }
  }

  lemma DeleteKeepsSchemasClosed(s: Store, q: Request, orders: Orders)
    requires SchemasClosed(s, q.corpusId)
    ensures SchemasClosed(Delete(s, q, orders), q.corpusId)
  {
    hide Delete, Decide, SnapshotItems, SchemaAfter, FactsAfter, DroppedFacts, Lists, HasId, OwnedPassageIds;
    var t, d := Delete(s, q, orders), Decide(s, q);
    var facts, schemas := SnapshotItems(s, q.corpusId, "facts"), SnapshotItems(s, q.corpusId, "schemas");
    SectionsAfter(s, q, orders);
    DecisionSets(s, q);
    var after := SnapshotItems(t, q.corpusId, "schemas");
    forall c | c in after
      ensures GetStr(c, "schemaId").Some? && forall id :: Lists(c, "factIds", id) ==>
        HasId(SnapshotItems(t, q.corpusId, "facts"), "factId", id)
    {
      var i :| 0 <= i < |after| && after[i] == c;
      assert schemas[i] in schemas;
      SchemaIdKept(schemas[i], q, d);
      forall id | Lists(c, "factIds", id) ensures HasId(SnapshotItems(t, q.corpusId, "facts"), "factId", id) {
        SchemaAfterLists(schemas[i], q, d.removedFacts, d.touched, id);
        ListedFactStays(facts, q, d.removedPassages, id);
      }
    }
  }

  /** A passage that grounds a surviving fact survives with it. */
  lemma GroundingStays(passages: seq<Json>, fact: Json, q: Request, removedPassages: set<string>, id: string)
    requires !FactAfter(fact, q, removedPassages).Dropped?
    requires OwnedPassageIds(passages, q, |passages|) <= removedPassages
    requires Lists(FactNow(fact, q, removedPassages), "passageIds", id) && Grounds(passages, fact, id)
    ensures Grounds(PassagesKept(passages, q), FactNow(fact, q, removedPassages), id)
  {
    var now := FactNow(fact, q, removedPassages);
    var i :| 0 <= i < |passages| && GetStr(passages[i], "passageId") == Some(id) && SourceOf(fact, passages[i]);
    var document := DocumentOf(Get(passages[i], "metadata")).value;
    if FactAfter(fact, q, removedPassages).Pruned? {
      FactAfterLists(fact, q, removedPassages, id);
      FactAfterLists(fact, q, removedPassages, document);
      OwnedPassageIdsMembers(passages, q, |passages|, id);
    }
    assert !OwnedPassage(passages[i], q);
    FilterMembers((p: Json) => !OwnedPassage(p, q), passages, passages[i]);
    var kept := PassagesKept(passages, q);
    var j :| 0 <= j < |kept| && kept[j] == passages[i];
    assert SourceOf(now, kept[j]);
  }

  lemma DeleteKeepsFactsGrounded(s: Store, q: Request, orders: Orders)
    requires FactsGrounded(s, q.corpusId)
    ensures FactsGrounded(Delete(s, q, orders), q.corpusId)
  {
    hide Delete, Decide, SnapshotItems, FactAfter, PassagesKept, FactsAfter, Lists, Grounds, OwnedPassageIds, DroppedFacts;
    var t, d := Delete(s, q, orders), Decide(s, q);
    var passages, facts := SnapshotItems(s, q.corpusId, "passages"), SnapshotItems(s, q.corpusId, "facts");
    SectionsAfter(s, q, orders);
    DecisionSets(s, q);
    forall f | f in SnapshotItems(t, q.corpusId, "facts")
      ensures forall id :: Lists(f, "passageIds", id) ==> Grounds(PassagesKept(passages, q), f, id)
    {
      FactsAfterMembers(facts, q, d.removedPassages, |facts|, f);
      var i :| 0 <= i < |facts| && Becomes(facts[i], q, d.removedPassages, f);
      assert facts[i] in facts && f == FactNow(facts[i], q, d.removedPassages);
      forall id | Lists(f, "passageIds", id) ensures Grounds(PassagesKept(passages, q), f, id) {
        ListedBefore(facts[i], q, d.removedPassages, id);
        GroundingStays(passages, facts[i], q, d.removedPassages, id);
      }
    }
  }

  lemma ListedBefore(fact: Json, q: Request, removedPassages: set<string>, id: string)
    requires !FactAfter(fact, q, removedPassages).Dropped? && Lists(FactNow(fact, q, removedPassages), "passageIds", id)
    ensures Lists(fact, "passageIds", id)
  {
    if FactAfter(fact, q, removedPassages).Pruned? {
      FactAfterLists(fact, q, removedPassages, id);
    }
  }

  // ---------- the graph mirrors the snapshot ----------

  /** Fact nodes hold a stored fact; ontology nodes hold the stored schema that their id names. */
  ghost predicate Mirrors(s: Store, corpusId: string) {
    var facts, schemas := SnapshotItems(s, corpusId, "facts"), SnapshotItems(s, corpusId, "schemas");
    && UniqueIds(facts, "factId") && UniqueIds(schemas, "schemaId")
    && (forall k :: k in s.nodes && s.nodes[k].corpusId == corpusId ==>
          && (s.nodes[k].layer == "fact" ==> s.nodes[k].ref in facts)
          && (s.nodes[k].layer == "ontology" ==> s.nodes[k].ref in schemas && NamedBySchema(k, s.nodes[k])))
  }

  predicate NamedBySchema(key: string, node: Node) {
    var id := GetStr(node.ref, "schemaId");
    id.Some? && node.nodeId == "schema:" + id.value && key == StoreKey(node.corpusId, node.nodeId)
  }

  lemma {:induction false} FactsStayUnique(facts: seq<Json>, q: Request, removedPassages: set<string>, k: nat)
    requires k <= |facts| && UniqueIds(facts, "factId")
    ensures UniqueIds(FactsAfter(facts, q, removedPassages, k), "factId")
  {
    hide FactAfter;
    if k > 0 {
      FactsStayUnique(facts, q, removedPassages, k - 1);
      var before, after := FactsAfter(facts, q, removedPassages, k - 1), FactsAfter(facts, q, removedPassages, k);
      if !FactAfter(facts[k - 1], q, removedPassages).Dropped? {
        FactIdKept(facts[k - 1], q, removedPassages);
        forall i | 0 <= i < |before| ensures GetStr(before[i], "factId") != GetStr(facts[k - 1], "factId") {
          FactsAfterMembers(facts, q, removedPassages, k - 1, before[i]);
          var j :| 0 <= j < k - 1 && Becomes(facts[j], q, removedPassages, before[i]);
          FactIdKept(facts[j], q, removedPassages);
        }
        assert after == before + [FactNow(facts[k - 1], q, removedPassages)];
      }
    }
  }

  /** A fact node that survives holds what its fact became. */
  lemma FactNodeMirrors(facts: seq<Json>, key: string, node: Node, q: Request, d: Decision)
    requires UniqueIds(facts, "factId") && d.factPost == FactPost(facts, q, d.removedPassages, |facts|)
    requires node.corpusId == q.corpusId && node.layer == "fact" && node.ref in facts && key !in d.ontologyKeys
    requires NodeAfter(key, node, q, d).Some?
    ensures NodeAfter(key, node, q, d).value.ref in FactsAfter(facts, q, d.removedPassages, |facts|)
  {
    hide FactPost, FactsAfter;
    var i :| 0 <= i < |facts| && facts[i] == node.ref;
    FactPostIs(facts, q, d.removedPassages, i);
    var ref := NodeAfter(key, node, q, d).value.ref;
    FactsAfterMembers(facts, q, d.removedPassages, |facts|, ref);
    SharedFactIsPruned(node, q, d.removedPassages);
    assert Becomes(facts[i], q, d.removedPassages, ref);
  }

  lemma SharedFactIsPruned(node: Node, q: Request, removedPassages: set<string>)
    requires node.corpusId == q.corpusId && node.layer == "fact"
    ensures GroundedFate(node, q, removedPassages) == Shared ==> FactAfter(node.ref, q, removedPassages).Pruned?
    ensures GroundedFate(node, q, removedPassages) == Untouched ==> FactAfter(node.ref, q, removedPassages).Kept?
  {
    if GroundedFate(node, q, removedPassages) == Shared {
      var ids := GetArray(node.ref, "sourceDocumentIds").value;
      var i :| 0 <= i < |ids| && ids[i].Str? && ids[i].s != q.documentId;
      var pruned := PruneField(node.ref, "sourceDocumentIds", {q.documentId});
      assert Lists(node.ref, "sourceDocumentIds", ids[i].s);
      PruneFieldLists(node.ref, "sourceDocumentIds", {q.documentId}, ids[i].s);
      FirstStringListed(pruned, "sourceDocumentIds");
      PruneFieldKeeps(node.ref, "sourceDocumentIds", {q.documentId}, "passageIds");
      assert GetArray(pruned, "passageIds") == GetArray(node.ref, "passageIds");
    }
  }

  /** An ontology node that survives holds what its schema became, under the same id. */
  lemma OntologyNodeMirrors(schemas: seq<Json>, nodes: map<string, Node>, key: string, q: Request, d: Decision)
    requires UniqueIds(schemas, "schemaId")
    requires d.schemaPost == SchemaPost(schemas, q, d.removedFacts, d.touched, d.needed, |schemas|)
    requires d.ontologyKeys == OntologyKeys(nodes, q, d.schemaPost)
    requires key in nodes && nodes[key].corpusId == q.corpusId && nodes[key].layer == "ontology"
    requires nodes[key].ref in schemas && NamedBySchema(key, nodes[key])
    requires NamesDocument(nodes[key], q) ==> GetStr(nodes[key].ref, "schemaId").value in d.needed
    requires NodeAfter(key, nodes[key], q, d).Some?
    ensures var after := NodeAfter(key, nodes[key], q, d).value;
      after.ref in SchemasAfter(schemas, q, d.removedFacts, d.touched) && NamedBySchema(key, after)
  {
    hide SchemaAfter, SchemaPost, SchemaAffected, OntologyKeys, NamesDocument;
    var node := nodes[key];
    var i :| 0 <= i < |schemas| && schemas[i] == node.ref;
    var id, after := GetStr(node.ref, "schemaId").value, SchemasAfter(schemas, q, d.removedFacts, d.touched);
    ListedSchemaIsMirrored(schemas, nodes, key, q, d, i);
    if key in d.ontologyKeys {
      SchemaPostKnown(schemas, q, d.removedFacts, d.touched, d.needed, |schemas|, id);
      var j :| 0 <= j < |schemas| && MakesSchema(schemas[j], q, d.removedFacts, d.touched, id, d.schemaPost[id]);
      assert after[j] in after;
      SchemaIdKept(schemas[j], q, d);
    } else {
      assert after[i] in after;
      AffectedIsMirrored(schemas, nodes, key, q, d, i);
      KeptSchema(schemas[i], q, d);
    }
  }

  /** A listed ontology node finds its own schema among the mirrors. */
  lemma ListedSchemaIsMirrored(schemas: seq<Json>, nodes: map<string, Node>, key: string, q: Request, d: Decision, i: nat)
    requires i < |schemas| && d.schemaPost == SchemaPost(schemas, q, d.removedFacts, d.touched, d.needed, |schemas|)
    requires d.ontologyKeys == OntologyKeys(nodes, q, d.schemaPost)
    requires key in nodes && nodes[key].corpusId == q.corpusId && schemas[i] == nodes[key].ref && NamedBySchema(key, nodes[key])
    requires NamesDocument(nodes[key], q) ==> GetStr(nodes[key].ref, "schemaId").value in d.needed
    ensures key in d.ontologyKeys ==> GetStr(nodes[key].ref, "schemaId").value in d.schemaPost
  {
    hide SchemaPost, SchemaAffected, NamesDocument;
    var id := GetStr(nodes[key].ref, "schemaId").value;
    if key in d.ontologyKeys {
      if NamesDocument(nodes[key], q) {
        SchemaPostHas(schemas, q, d.removedFacts, d.touched, d.needed, |schemas|, i);
      } else {
        var other :| other in d.schemaPost && key == StoreKey(q.corpusId, "schema:" + other);
        StoreKeyInjective(q.corpusId, "schema:" + id, "schema:" + other);
        assert other == ("schema:" + other)[7..] && id == ("schema:" + id)[7..];
      }
    }
  }

  lemma KeptSchema(schema: Json, q: Request, d: Decision)
    ensures !SchemaAffected(schema, q, d.removedFacts, d.touched) ==> SchemaAfter(schema, q, d.removedFacts, d.touched) == schema
  {
  }

  /** The node of an affected schema is listed. */
  lemma AffectedIsMirrored(schemas: seq<Json>, nodes: map<string, Node>, key: string, q: Request, d: Decision, i: nat)
    requires i < |schemas| && d.schemaPost == SchemaPost(schemas, q, d.removedFacts, d.touched, d.needed, |schemas|)
    requires key in nodes && nodes[key].corpusId == q.corpusId && nodes[key].layer == "ontology"
    requires schemas[i] == nodes[key].ref && NamedBySchema(key, nodes[key])
    ensures SchemaAffected(schemas[i], q, d.removedFacts, d.touched) ==> key in OntologyKeys(nodes, q, d.schemaPost)
  {
    hide SchemaPost, SchemaAffected, NamesDocument;
    if SchemaAffected(schemas[i], q, d.removedFacts, d.touched) {
      SchemaPostHas(schemas, q, d.removedFacts, d.touched, d.needed, |schemas|, i);
      assert MirrorsPost(key, q, d.schemaPost);
    }
  }

  lemma SchemasStayUnique(schemas: seq<Json>, q: Request, d: Decision)
    requires UniqueIds(schemas, "schemaId")
    ensures UniqueIds(SchemasAfter(schemas, q, d.removedFacts, d.touched), "schemaId")
  {
    hide SchemaAfter;
    forall i | 0 <= i < |schemas|
      ensures GetStr(SchemaAfter(schemas[i], q, d.removedFacts, d.touched), "schemaId") == GetStr(schemas[i], "schemaId")
    {
      SchemaIdKept(schemas[i], q, d);
    }
  }

  lemma DecisionParts(s: Store, q: Request)
    ensures var d := Decide(s, q);
      var facts, schemas := SnapshotItems(s, q.corpusId, "facts"), SnapshotItems(s, q.corpusId, "schemas");
      && d.factPost == FactPost(facts, q, d.removedPassages, |facts|)
      && d.schemaPost == SchemaPost(schemas, q, d.removedFacts, d.touched, d.needed, |schemas|)
      && d.ontologyKeys == OntologyKeys(s.nodes, q, d.schemaPost)
      && d.needed == Needed(s, q)
  {
    hide RemovedPassages, DroppedFacts, NodeFacts, FactPost, SchemaPost, OntologyKeys, Needed, TouchedSchemas;
  }

  lemma OntologyKeysAreOntology(nodes: map<string, Node>, q: Request, schemaPost: map<string, Json>, key: string)
    requires key in OntologyKeys(nodes, q, schemaPost)
    ensures key in nodes && nodes[key].layer == "ontology"
  {
  }

  /** Whatever is deleted, surviving fact and ontology nodes hold exactly their stored fact or schema. */
  lemma DeleteKeepsMirrors(s: Store, q: Request, orders: Orders)
    requires Mirrors(s, q.corpusId)
    ensures Mirrors(Delete(s, q, orders), q.corpusId)
  {
    hide Delete, Decide, SnapshotItems, FactsAfter, SchemasAfter, FactPost, SchemaPost, OntologyKeys, NamedBySchema, NodeAfter,
      GraphAfter, UniqueIds;
    var t, d := Delete(s, q, orders), Decide(s, q);
    var facts, schemas := SnapshotItems(s, q.corpusId, "facts"), SnapshotItems(s, q.corpusId, "schemas");
    SectionsAfter(s, q, orders);
    DecisionParts(s, q);
    FactsStayUnique(facts, q, d.removedPassages, |facts|);
    SchemasStayUnique(schemas, q, d);
    DeleteGraph(s, q, orders);
    forall k | k in t.nodes && t.nodes[k].corpusId == q.corpusId
      ensures t.nodes[k].layer == "fact" ==> t.nodes[k].ref in SnapshotItems(t, q.corpusId, "facts")
      ensures t.nodes[k].layer == "ontology" ==>
        t.nodes[k].ref in SnapshotItems(t, q.corpusId, "schemas") && NamedBySchema(k, t.nodes[k])
    {
      NodesAreOld(s.nodes, s.edges, q, d, k);
      NodeAfterKeepsIds(k, s.nodes[k], q, d);
      if s.nodes[k].layer == "fact" {
        if k in d.ontologyKeys {
          OntologyKeysAreOntology(s.nodes, q, d.schemaPost, k);
        }
        FactNodeMirrors(facts, k, s.nodes[k], q, d);
      } else if s.nodes[k].layer == "ontology" {
        NeededByName(s, q, k);
        OntologyNodeMirrors(schemas, s.nodes, k, q, d);
      }
    }
  }

  lemma NeededByName(s: Store, q: Request, key: string)
    requires key in s.nodes && NamedBySchema(key, s.nodes[key])
    ensures NamesDocument(s.nodes[key], q) ==> GetStr(s.nodes[key].ref, "schemaId").value in Needed(s, q)
  {
    hide NamesDocument, NamesSchema;
  }
}
