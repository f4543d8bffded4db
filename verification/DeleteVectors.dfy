/**
  The vectors after a delete: a vector of the document survives exactly when a
  surviving record still speaks for it, and then names that record's first document.
 */
module DeleteVectors {
  import opened Wrappers
  import opened Text
  import opened Json
  import opened MapPasses
  import opened DeleteSpec
  import opened DeleteJson
  import opened DeleteProofs
  import opened DeleteMeaning
  import opened DeleteOutcome

  // ---------- which record speaks for a vector ----------

  /** The passes rewrite the node stored under `k`, if they do not remove it. */
  predicate Rewritten(s: Store, q: Request, d: Decision, k: string) {
    k in s.nodes && (k in d.ontologyKeys || Reached(s.nodes[k], q))
  }

  /**
    The document that a vector of id `x` moves to: the first one of its rewritten
    node, or of its stored schema when no node was rewritten.
   */
  ghost predicate Home(s: Store, t: Store, q: Request, d: Decision, x: string, first: string) {
    var k := q.corpusId + ":" + x;
    if Rewritten(s, q, d, k) then k in t.nodes && CitesFirst(t.nodes[k].ref, "sourceDocumentIds", first)
    else exists id :: id in d.schemaPost && x == "schema:" + id && CitesFirst(d.schemaPost[id], "sourceDocumentIds", first)
  }

  /** The record of that id left the graph. */
  ghost predicate Left(s: Store, t: Store, q: Request, d: Decision, x: string) {
    NameGone(s, t, x) || Abandoned(s, t, q, d, x)
  }

  predicate NamedBy(v: Vector, q: Request) {
    v.corpusId == q.corpusId && Says(v.metadata, "documentId", q.documentId)
  }

  // ---------- the re-key map ----------

  /** Keys and ids agree for the nodes that the passes walk. */
  ghost predicate OwnKeys(nodes: map<string, Node>, q: Request, order: seq<string>) {
    forall k :: k in order && k in nodes ==> k == StoreKey(q.corpusId, nodes[k].nodeId)
  }

  predicate Shares(nodes: map<string, Node>, q: Request, d: Decision, k: string) {
    k in nodes && k !in d.ontologyKeys && FinalFate(nodes[k], q, d) == Shared
    && FirstString(SharedRef(nodes[k], q, d), "sourceDocumentIds").Some?
  }

  lemma {:induction false} SharedAt(rekey: map<string, string>, nodes: map<string, Node>, q: Request, d: Decision,
                                    order: seq<string>, j: nat, x: string)
    requires j <= |order| && OwnKeys(nodes, q, order)
    ensures var k, r := StoreKey(q.corpusId, x), RekeyShared(rekey, nodes, q, d, order, j);
      if k in order[..j] && Shares(nodes, q, d, k)
      then x in r && r[x] == FirstString(SharedRef(nodes[k], q, d), "sourceDocumentIds").value
      else (x in r <==> x in rekey) && (x in r ==> r[x] == rekey[x])
  {
    hide FinalFate, SharedRef, FirstString, StoreKey;
    if j > 0 {
      SharedAt(rekey, nodes, q, d, order, j - 1, x);
      assert order[..j] == order[..j - 1] + [order[j - 1]];
      assert order[j - 1] in order;
      if order[j - 1] in nodes {
        OwnKey(nodes, q, order, order[j - 1], x);
      }
    }
  }

  lemma OwnKey(nodes: map<string, Node>, q: Request, order: seq<string>, k: string, x: string)
    requires OwnKeys(nodes, q, order) && k in order && k in nodes
    ensures nodes[k].nodeId == x <==> k == StoreKey(q.corpusId, x)
  {
    if k == StoreKey(q.corpusId, x) {
      StoreKeyInjective(q.corpusId, x, nodes[k].nodeId);
    }
  }

  lemma {:induction false} OntologyAt(rekey: map<string, string>, nodes: map<string, Node>, q: Request, d: Decision,
                                      order: seq<string>, j: nat, x: string)
    requires j <= |order| && OwnKeys(nodes, q, order)
    ensures var k, r := StoreKey(q.corpusId, x), RekeyOntology(rekey, nodes, q, d, order, j);
      if k in order[..j] && k in nodes
      then (x in r <==> Support(nodes[k], q, d).Some?) && (x in r ==> r[x] == Support(nodes[k], q, d).value)
      else (x in r <==> x in rekey) && (x in r ==> r[x] == rekey[x])
  {
    hide Support, StoreKey;
    if j > 0 {
      OntologyAt(rekey, nodes, q, d, order, j - 1, x);
      assert order[..j] == order[..j - 1] + [order[j - 1]];
      assert order[j - 1] in order;
      if order[j - 1] in nodes {
        OwnKey(nodes, q, order, order[j - 1], x);
      }
    }
  }

  lemma SchemasAt(post: map<string, Json>, x: string, first: string)
    ensures var r := RekeySchemas(post);
      (x in r && r[x] == first)
      <==> exists id :: id in post && x == "schema:" + id && CitesFirst(post[id], "sourceDocumentIds", first)
  {
    hide FirstString, CitesFirst;
    if "schema:" <= x {
      var id := x[7..];
      assert x == "schema:" + id && StripSchema(x) == id;
      if id in post {
        FirstIsCited(post[id], "sourceDocumentIds", first);
      }
    }
    forall id | x == "schema:" + id ensures "schema:" <= x && x[7..] == id {
    }
  }

  /** In a saved store without foreign keys the walks only meet nodes under their own keys. */
  lemma WalksOwnKeys(s: Store, q: Request, orders: Orders)
    requires IsSaved(s) && NoForeignKeys(s.nodes, q.corpusId) && IsOrders(orders)
    ensures var d := Decide(s, q);
      && OwnKeys(s.nodes, q, orders(0, FatedKeys(s.nodes, q))) && OwnKeys(s.nodes, q, orders(1, d.ontologyKeys))
  {
    hide Decide;
    var d := Decide(s, q);
    DecideKeys(s, q);
    assert Listing(orders(0, FatedKeys(s.nodes, q)), FatedKeys(s.nodes, q));
    assert Listing(orders(1, d.ontologyKeys), d.ontologyKeys);
    forall k | k in d.ontologyKeys ensures k in s.nodes && s.nodes[k].corpusId == q.corpusId {
      OntologyIsOwn(s, q, d, k);
    }
  }

  lemma OntologyIsOwn(s: Store, q: Request, d: Decision, k: string)
    requires NoForeignKeys(s.nodes, q.corpusId) && d.ontologyKeys == OntologyKeys(s.nodes, q, d.schemaPost)
    requires k in d.ontologyKeys
    ensures k in s.nodes && s.nodes[k].corpusId == q.corpusId && s.nodes[k].layer == "ontology"
  {
    if !NamesDocument(s.nodes[k], q) {
      var id :| id in d.schemaPost && k == StoreKey(q.corpusId, "schema:" + id);
      StoreKeyPrefix(q.corpusId, "schema:" + id);
    }
  }

  /** Every mirrored fact still cites a document. */
  lemma MirrorsCite(s: Store, q: Request)
    ensures var d := Decide(s, q); forall id :: id in d.factPost ==> FirstString(d.factPost[id], "sourceDocumentIds").Some?
  {
    hide RemovedPassages, NodeFacts, DroppedFacts, TouchedSchemas, Needed, SchemaPost, FactPost, OntologyKeys, SnapshotItems,
      FirstString, FactAfter;
    var facts, d := SnapshotItems(s, q.corpusId, "facts"), Decide(s, q);
    forall id | id in d.factPost ensures FirstString(d.factPost[id], "sourceDocumentIds").Some? {
      FactPostKnown(facts, q, d.removedPassages, |facts|, id);
      var i :| 0 <= i < |facts| && MakesPost(facts[i], q, d.removedPassages, id, d.factPost[id]);
      FactAfterLists(facts[i], q, d.removedPassages, "");
    }
  }

  /** So does the ref of every shared node. */
  lemma SharedCites(n: Node, q: Request, d: Decision)
    requires forall id :: id in d.factPost ==> FirstString(d.factPost[id], "sourceDocumentIds").Some?
    requires FinalFate(n, q, d) == Shared
    ensures FirstString(SharedRef(n, q, d), "sourceDocumentIds").Some?
  {
    hide NamesOther, Names, LosesAll;
    assert n.corpusId == q.corpusId && n.layer != "ontology" && n.layer != "entity";
    FateMeans(n, q);
    hide ScanFate, FinalFate;
    var once := PruneField(n.ref, "sourceDocumentIds", {q.documentId});
    PrunedNamesOther(n.ref, q);
    PruneFieldKeeps(once, "passageIds", d.removedPassages, "sourceDocumentIds");
    StampKeeps(PruneField(once, "passageIds", d.removedPassages), q.updatedAt, "sourceDocumentIds");
  }

  /** The last write for `x` is that of the node under its key, when the passes rewrite it. */
  lemma RekeyAt(s: Store, q: Request, orders: Orders, x: string)
    requires IsSaved(s) && NoForeignKeys(s.nodes, q.corpusId) && IsOrders(orders)
    ensures var d, k := Decide(s, q), StoreKey(q.corpusId, x);
      var rekey, base := Rekey(s.nodes, q, d, orders), RekeySchemas(d.schemaPost);
      if k in d.ontologyKeys
      then k in s.nodes && (x in rekey <==> Support(s.nodes[k], q, d).Some?)
        && (x in rekey ==> rekey[x] == Support(s.nodes[k], q, d).value)
      else if Shares(s.nodes, q, d, k)
      then x in rekey && rekey[x] == FirstString(SharedRef(s.nodes[k], q, d), "sourceDocumentIds").value
      else (x in rekey <==> x in base) && (x in rekey ==> rekey[x] == base[x])
  {
    hide Decide, RekeySchemas, RekeyShared, RekeyOntology, Support, SharedRef, FirstString, OwnKeys, IsSaved,
      NoForeignKeys, FinalFate;
    var d, k := Decide(s, q), StoreKey(q.corpusId, x);
    var fated, listed := orders(0, FatedKeys(s.nodes, q)), orders(1, d.ontologyKeys);
    WalksOwnKeys(s, q, orders);
    OntologyKeysStored(s, q, k);
    var base := RekeySchemas(d.schemaPost);
    SharedAt(base, s.nodes, q, d, fated, |fated|, x);
    OntologyAt(RekeyShared(base, s.nodes, q, d, fated, |fated|), s.nodes, q, d, listed, |listed|, x);
    assert fated[..|fated|] == fated && listed[..|listed|] == listed;
    assert Listing(fated, FatedKeys(s.nodes, q)) && Listing(listed, d.ontologyKeys);
    if Shares(s.nodes, q, d, k) {
      SharedIsFated(s.nodes[k], q, d);
      assert k in FatedKeys(s.nodes, q);
    }
  }

  lemma SharedIsFated(n: Node, q: Request, d: Decision)
    requires FinalFate(n, q, d) == Shared
    ensures ScanFate(n, q) != Untouched
  {
    hide ScanFate;
  }

  lemma OntologyKeysStored(s: Store, q: Request, k: string)
    ensures k in Decide(s, q).ontologyKeys ==> k in s.nodes && s.nodes[k].layer == "ontology"
  {
    hide Decide, MirrorsPost;
    DecideKeys(s, q);
  }

  /** Where a node of the final store comes from. */
  lemma FinalNode(s: Store, q: Request, orders: Orders, k: string)
    requires k in s.nodes && s.nodes[k].layer != "entity"
    ensures var t, d := Delete(s, q, orders), Decide(s, q);
      && (k in t.nodes <==> NodeAfter(k, s.nodes[k], q, d).Some?)
      && (k in t.nodes ==> t.nodes[k] == NodeAfter(k, s.nodes[k], q, d).value)
  {
    hide Decide, Delete, GraphAfter, NodeAfter;
    DeleteGraph(s, q, orders);
    NonEntityStays(s.nodes, s.edges, q, Decide(s, q), k);
  }

  /** For a record that did not leave, the re-key map holds exactly its home. */
  lemma RekeyIsHome(s: Store, q: Request, orders: Orders, x: string, first: string)
    requires IsSaved(s) && NoForeignKeys(s.nodes, q.corpusId) && IsOrders(orders)
    requires !Left(s, Delete(s, q, orders), q, Decide(s, q), x)
    ensures var d := Decide(s, q);
      var rekey := Rekey(s.nodes, q, d, orders);
      x in rekey && rekey[x] == first <==> Home(s, Delete(s, q, orders), q, d, x, first)
  {
    hide Decide, Delete, Rekey, RekeySchemas, OntologyRef, SharedRef, FirstString, IsSaved, NoForeignKeys, FinalFate,
      CitesFirst, NameGone,
      Abandoned, Reached, IsOrders;
    var d, t, k := Decide(s, q), Delete(s, q, orders), StoreKey(q.corpusId, x);
    RekeyAt(s, q, orders, x);
    SchemasAt(d.schemaPost, x, first);
    OntologyKeysStored(s, q, k);
    if k in s.nodes {
      var n := s.nodes[k];
      FinalFateMeans(n, q, d);
      ReachedLayer(n, q);
      FirstIsCited(OntologyRef(n, q, d), "sourceDocumentIds", first);
      FirstIsCited(SharedRef(n, q, d), "sourceDocumentIds", first);
      if Rewritten(s, q, d, k) {
        FinalNode(s, q, orders, k);
        if k !in d.ontologyKeys {
          if FinalFate(n, q, d) == Shared {
            MirrorsCite(s, q);
            SharedCites(n, q, d);
          } else {
            OwnNodeLeft(s, q, orders, k, x);
          }
        }
      } else {
        OntologyUnfated(n, q, d);
      }
    }
  }

  lemma ReachedLayer(n: Node, q: Request)
    ensures Reached(n, q) ==> n.layer != "ontology" && n.layer != "entity" && n.corpusId == q.corpusId
  {
  }

  lemma OntologyUnfated(n: Node, q: Request, d: Decision)
    ensures n.layer == "ontology" ==> FinalFate(n, q, d) == Untouched
  {
  }

  /** A stored node of the corpus that goes takes its id with it. */
  lemma OwnNodeLeft(s: Store, q: Request, orders: Orders, k: string, x: string)
    requires IsSaved(s) && k in s.nodes && s.nodes[k].corpusId == q.corpusId && s.nodes[k].layer != "entity"
    requires k == StoreKey(q.corpusId, x) && k !in Delete(s, q, orders).nodes
    ensures NameGone(s, Delete(s, q, orders), x)
  {
    hide Delete;
    StoreKeyInjective(q.corpusId, x, s.nodes[k].nodeId);
  }

  // ---------- the vectors ----------

  lemma LeftMeans(s: Store, q: Request, orders: Orders, x: string)
    ensures var d := Decide(s, q);
      x in GraphAfter(s.nodes, s.edges, q, d).allRemoved <==> Left(s, Delete(s, q, orders), q, d, x)
  {
    hide Decide, Delete, NameGone, Abandoned, Orphaned, RemovedIds, EdgesApart, EdgesKept, Supported, Candidates;
    var d := Decide(s, q);
    DecideKeys(s, q);
    NameGoneMeans(s, q, orders, x);
    AbandonedMeans(s, q, orders, x);
    OrphansAre(s.nodes, s.edges, q, d, x);
  }

  /** The same vector under another document. */
  predicate MovesTo(v: Vector, after: Vector, documentId: string) {
    v.metadata.Obj? && after == v.(metadata := Obj(v.metadata.fields["documentId" := Str(documentId)]))
  }

  /** What becomes of a vector of the store. */
  ghost predicate VectorOutcome(s: Store, t: Store, q: Request, d: Decision, k: string)
    requires k in s.vectors
  {
    var v := s.vectors[k];
    if v.corpusId != q.corpusId then k in t.vectors && t.vectors[k] == v
    else if Left(s, t, q, d, v.id) then k !in t.vectors
    else if !NamedBy(v, q) then k in t.vectors && t.vectors[k] == v
    else
      && (k in t.vectors <==> exists first :: Home(s, t, q, d, v.id, first))
      && (k in t.vectors ==> exists first :: Home(s, t, q, d, v.id, first) && MovesTo(v, t.vectors[k], first))
  }

  lemma VectorLookup(s: Store, q: Request, orders: Orders, k: string)
    requires k in s.vectors
    ensures var t, d := Delete(s, q, orders), Decide(s, q);
      var after := VectorAfter(s.vectors[k], q, GraphAfter(s.nodes, s.edges, q, d).allRemoved, Rekey(s.nodes, q, d, orders));
      && (k in t.vectors <==> after.Some?) && (k in t.vectors ==> t.vectors[k] == after.value)
  {
    hide Decide, GraphAfter, Rekey, VectorAfter, SnapshotsAfter, PassagesAfter;
  }

  lemma VectorAfterMeans(v: Vector, q: Request, removedIds: set<string>, rekey: map<string, string>)
    ensures var after := VectorAfter(v, q, removedIds, rekey);
      if v.corpusId != q.corpusId then after == Some(v)
      else if v.id in removedIds then after == None
      else if !NamedBy(v, q) then after == Some(v)
      else (after.Some? <==> v.id in rekey) && (after.Some? ==> MovesTo(v, after.value, rekey[v.id]))
  {
  }

  /** Every vector stays, goes or moves as the record of its id says, and its values with it. */
  lemma VectorsMean(s: Store, q: Request, orders: Orders, k: string)
    requires IsSaved(s) && NoForeignKeys(s.nodes, q.corpusId) && IsOrders(orders)
    ensures var t := Delete(s, q, orders);
      && (k in s.vectors ==> VectorOutcome(s, t, q, Decide(s, q), k))
      && (k in t.vectors ==> k in s.vectors)
      && (k in t.values <==> k in s.values && !(k in s.vectors && k !in t.vectors))
      && (k in t.values ==> t.values[k] == s.values[k])
  {
    hide Decide, Delete, GraphAfter, Rekey, VectorAfter, Left, Home, IsSaved, NoForeignKeys, MovesTo, NamedBy, IsOrders;
    var d, t := Decide(s, q), Delete(s, q, orders);
    ValuesFollow(s, q, orders, k);
    if k in s.vectors {
      var v, rekey := s.vectors[k], Rekey(s.nodes, q, d, orders);
      VectorLookup(s, q, orders, k);
      LeftMeans(s, q, orders, v.id);
      VectorAfterMeans(v, q, GraphAfter(s.nodes, s.edges, q, d).allRemoved, rekey);
      if v.corpusId == q.corpusId && !Left(s, t, q, d, v.id) {
        if v.id in rekey {
          RekeyIsHome(s, q, orders, v.id, rekey[v.id]);
        }
        if first :| Home(s, t, q, d, v.id, first) {
          RekeyIsHome(s, q, orders, v.id, first);
        }
      }
    }
  }

  lemma ValuesFollow(s: Store, q: Request, orders: Orders, k: string)
    ensures var t := Delete(s, q, orders);
      && (k in t.vectors ==> k in s.vectors)
      && (k in t.values <==> k in s.values && !(k in s.vectors && k !in t.vectors))
      && (k in t.values ==> t.values[k] == s.values[k])
  {
    hide Decide, GraphAfter, Rekey, VectorAfter, SnapshotsAfter, PassagesAfter;
  }

  /** A surviving node's id did not leave. */
  lemma SurvivorStays(s: Store, q: Request, orders: Orders, x: string)
    requires IsSaved(s) && NoForeignKeys(s.nodes, q.corpusId)
    requires q.corpusId + ":" + x in Delete(s, q, orders).nodes
    ensures !Left(s, Delete(s, q, orders), q, Decide(s, q), x)
  {
    hide Decide, Delete, GraphAfter, Abandoned, NodeAfter;
    var d, t, k := Decide(s, q), Delete(s, q, orders), StoreKey(q.corpusId, x);
    DeleteGraph(s, q, orders);
    NodesAreOld(s.nodes, s.edges, q, d, k);
    if Abandoned(s, t, q, d, x) {
      AbandonedIsEntity(s, t, q, d, x);
      EntitiesMean(s, q, orders, k);
      assert false;
    }
    if NameGone(s, t, x) {
      var other :| other in s.nodes && other !in t.nodes && s.nodes[other].layer != "entity" && s.nodes[other].nodeId == x;
      GoneIsOwn(s, q, orders, other);
      assert false;
    }
  }

  lemma AbandonedIsEntity(s: Store, t: Store, q: Request, d: Decision, x: string)
    requires Abandoned(s, t, q, d, x)
    ensures IsEntityNode(s, q, x)
  {
  }

  lemma GoneIsOwn(s: Store, q: Request, orders: Orders, k: string)
    requires NoForeignKeys(s.nodes, q.corpusId) && k in s.nodes && k !in Delete(s, q, orders).nodes
    requires s.nodes[k].layer != "entity"
    ensures s.nodes[k].corpusId == q.corpusId
  {
    hide Decide, Delete, OntologyKeys, Support;
    DecideKeys(s, q);
    FinalNode(s, q, orders, k);
    if k in Decide(s, q).ontologyKeys {
      OntologyIsOwn(s, q, Decide(s, q), k);
    }
  }

  /**
    A vector that named the document follows its node: when the passes rewrite the
    node and it survives, the vector stays under the node's first document, which
    the node still has. A vector that did not name the document stays as it was.
   */
  lemma VectorFollowsNode(s: Store, q: Request, orders: Orders, k: string)
    requires IsSaved(s) && NoForeignKeys(s.nodes, q.corpusId) && IsOrders(orders)
    requires k in s.vectors && s.vectors[k].corpusId == q.corpusId
    requires q.corpusId + ":" + s.vectors[k].id in Delete(s, q, orders).nodes
    ensures var t, v, node := Delete(s, q, orders), s.vectors[k], q.corpusId + ":" + s.vectors[k].id;
      && (!NamedBy(v, q) ==> k in t.vectors && t.vectors[k] == v)
      && (NamedBy(v, q) && Rewritten(s, q, Decide(s, q), node) ==>
            && k in t.vectors
            && exists first :: CitesFirst(t.nodes[node].ref, "sourceDocumentIds", first) && MovesTo(v, t.vectors[k], first))
      && (k in t.vectors && k in s.values ==> k in t.values && t.values[k] == s.values[k])
  {
    hide Decide, Delete, Left, IsSaved, NoForeignKeys, CitesFirst, MovesTo, NamedBy, Reached, IsOrders;
    var d, t, v := Decide(s, q), Delete(s, q, orders), s.vectors[k];
    SurvivorStays(s, q, orders, v.id);
    VectorsMean(s, q, orders, k);
    if NamedBy(v, q) && Rewritten(s, q, d, q.corpusId + ":" + v.id) {
      RewrittenHasHome(s, q, orders, v.id);
    }
  }

  /** A rewritten node that survives has a first document. */
  lemma RewrittenHasHome(s: Store, q: Request, orders: Orders, x: string)
    requires var k := q.corpusId + ":" + x; k in Delete(s, q, orders).nodes && Rewritten(s, q, Decide(s, q), k)
    ensures exists first :: Home(s, Delete(s, q, orders), q, Decide(s, q), x, first)
  {
    hide Decide, Delete, FirstString, CitesFirst, FinalFate, OntologyRef, SharedRef, Reached;
    var d, t, k := Decide(s, q), Delete(s, q, orders), q.corpusId + ":" + x;
    var n, ref := s.nodes[k], t.nodes[k].ref;
    OntologyKeysStored(s, q, k);
    ReachedLayer(n, q);
    FinalNode(s, q, orders, k);
    FinalFateMeans(n, q, d);
    if k !in d.ontologyKeys {
      MirrorsCite(s, q);
      SharedCites(n, q, d);
    }
    assert FirstString(ref, "sourceDocumentIds").Some?;
    FirstIsCited(ref, "sourceDocumentIds", FirstString(ref, "sourceDocumentIds").value);
    assert Home(s, t, q, d, x, FirstString(ref, "sourceDocumentIds").value);
  }

  // ---------- the counters ----------

  /** The report's two vector counters are the vectors that went and the vectors of the document that stayed. */
  lemma VectorCounters(s: Store, q: Request, orders: Orders)
    ensures var t, c := Delete(s, q, orders), Report(s, q, orders);
      && c.removedVectors == |set k | k in s.vectors && k !in t.vectors|
      && c.rekeyedVectors == |set k | k in s.vectors && k in t.vectors && NamedBy(s.vectors[k], q)|
  {
    hide Decide, Delete, GraphAfter, Rekey, VectorAfter, IsRekeyed, NamedBy, SharedFacts, AffectedSchemas, AdjustedSchemas,
      SnapshotsAfter, Unsupported, Fated, OfLayer, SnapshotItems, PassagesKept, FactsAfter;
    var t, d := Delete(s, q, orders), Decide(s, q);
    var removed, rekey := GraphAfter(s.nodes, s.edges, q, d).allRemoved, Rekey(s.nodes, q, d, orders);
    forall k | k in s.vectors
      ensures k in DroppedVectors(s.vectors, q, removed, rekey) <==> k !in t.vectors
      ensures k in RekeyedVectors(s.vectors, q, removed, rekey) <==> k in t.vectors && NamedBy(s.vectors[k], q)
    {
      VectorLookup(s, q, orders, k);
      RekeyedIsKept(s.vectors[k], q, removed, rekey);
    }
    assert DroppedVectors(s.vectors, q, removed, rekey) == set k | k in s.vectors && k !in t.vectors;
    assert RekeyedVectors(s.vectors, q, removed, rekey) == set k | k in s.vectors && k in t.vectors && NamedBy(s.vectors[k], q);
  }

  lemma RekeyedIsKept(v: Vector, q: Request, removedIds: set<string>, rekey: map<string, string>)
    ensures IsRekeyed(v, q, removedIds, rekey) <==> NamedBy(v, q) && VectorAfter(v, q, removedIds, rekey).Some?
  {
  }
}
