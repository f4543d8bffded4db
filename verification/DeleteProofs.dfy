/** What one document delete keeps, removes and leaves alone, for every store and every map order. */
module DeleteProofs {
  import opened Wrappers
  import opened Text
  import opened Json
  import opened DeleteSpec
  import opened DeleteJson

  // ---------- the store invariant ----------

  predicate HasNode(nodes: map<string, Node>, corpusId: string, nodeId: string) {
    var key := StoreKey(corpusId, nodeId);
    key in nodes && nodes[key].corpusId == corpusId && nodes[key].nodeId == nodeId
  }

  /** Every edge's endpoints exist, and every vector has its values. */
  ghost predicate StoreInvariant(s: Store) {
    && (forall k :: k in s.edges ==>
          HasNode(s.nodes, s.edges[k].corpusId, s.edges[k].sourceNodeId)
          && HasNode(s.nodes, s.edges[k].corpusId, s.edges[k].targetNodeId))
    && s.vectors.Keys == s.values.Keys
  }

  /** No node of another corpus is stored under a key that reads as one of this corpus. */
  ghost predicate NoForeignKeys(nodes: map<string, Node>, corpusId: string) {
    forall k :: k in nodes && nodes[k].corpusId != corpusId ==> !StartsWith(k, corpusId + ":")
  }

  /** A store as the program writes it: records under their own keys, snapshots under their own corpus. */
  ghost predicate IsSaved(s: Store) {
    && (forall k :: k in s.nodes ==> k == StoreKey(s.nodes[k].corpusId, s.nodes[k].nodeId))
    && (forall k :: k in s.edges ==> k == StoreKey(s.edges[k].corpusId, s.edges[k].edgeId))
    && (forall k :: k in s.vectors ==> k == StoreKey(s.vectors[k].corpusId, s.vectors[k].id))
    && (forall k :: k in s.passages ==> k == StoreKey(s.passages[k].corpusId, s.passages[k].passageId))
    && (forall c :: c in s.snapshots ==> GetStr(s.snapshots[c], "corpusId") == Some(c))
  }

  /** In a saved store no key is foreign when neither the corpus nor any node's corpus holds a colon. */
  lemma ColonFreeCorporaSuffice(s: Store, corpusId: string)
    requires IsSaved(s) && ':' !in corpusId && forall k :: k in s.nodes ==> ':' !in s.nodes[k].corpusId
    ensures NoForeignKeys(s.nodes, corpusId)
  {
    forall k | k in s.nodes && s.nodes[k].corpusId != corpusId ensures !StartsWith(k, corpusId + ":") {
      PrefixesApart(s.nodes[k].corpusId, s.nodes[k].nodeId, corpusId);
    }
  }

  /** The first colon of a key ends its corpus. */
  lemma PrefixesApart(own: string, id: string, corpusId: string)
    requires own != corpusId && ':' !in own && ':' !in corpusId
    ensures !StartsWith(StoreKey(own, id), corpusId + ":")
  {
    var key, prefix := StoreKey(own, id), corpusId + ":";
    assert key == own + ":" + id;
    if |prefix| <= |key| {
      if |corpusId| < |own| {
        assert key[|corpusId|] == own[|corpusId|] != ':' == prefix[|corpusId|];
      } else if |own| < |corpusId| {
        assert prefix[|own|] == corpusId[|own|] != ':' == key[|own|];
      } else {
        assert key[..|own|] == own && prefix[..|own|] == corpusId;
      }
    }
  }

  /** A node of another corpus under the key of a schema that the passes mirror. */
  predicate TakenForMirror(nodes: map<string, Node>, q: Request, d: Decision, k: string) {
    k in nodes && nodes[k].corpusId != q.corpusId && nodes[k].layer == "ontology" && MirrorsPost(k, q, d.schemaPost)
  }

  /** An edge that is cut for a removed node or fact touches `x`. */
  ghost predicate TouchedByCut(nodes: map<string, Node>, edges: map<string, Edge>, q: Request, d: Decision, x: string) {
    exists k :: k in edges && x in Ends(edges[k]) && Cut(edges[k], q, RemovedIds(nodes, q, d), d.removedFacts)
  }

  /** A mention or co-occurrence edge that is not cut touches `x`. */
  ghost predicate TouchedByKeptSupport(nodes: map<string, Node>, edges: map<string, Edge>, q: Request, d: Decision, x: string) {
    exists k :: k in edges && x in Ends(edges[k]) && Supports(edges[k], q)
      && !Cut(edges[k], q, RemovedIds(nodes, q, d), d.removedFacts)
  }

  /** An entity that the cut touches and that no mention outside the cut supports. */
  ghost predicate Orphaned(nodes: map<string, Node>, edges: map<string, Edge>, q: Request, d: Decision, x: string) {
    && x !in RemovedIds(nodes, q, d) && IsEntity(nodes, q, x)
    && TouchedByCut(nodes, edges, q, d, x) && !TouchedByKeptSupport(nodes, edges, q, d, x)
  }

  /** Entity nodes are not touched by the node passes. */
  lemma EntityStays(key: string, node: Node, q: Request, d: Decision, nodes: map<string, Node>)
    requires d.ontologyKeys == OntologyKeys(nodes, q, d.schemaPost) && key in nodes && nodes[key] == node
    requires node.layer == "entity"
    ensures NodeAfter(key, node, q, d) == Some(node)
  {
  }

  /** The orphans of the one round are the orphaned entities of the graph before the delete. */
  lemma OrphansAre(nodes: map<string, Node>, edges: map<string, Edge>, q: Request, d: Decision, x: string)
    requires d.ontologyKeys == OntologyKeys(nodes, q, d.schemaPost)
    ensures x in GraphAfter(nodes, edges, q, d).orphans <==> Orphaned(nodes, edges, q, d, x)
  {
    var g := GraphAfter(nodes, edges, q, d);
    CandidatesAre(nodes, edges, q, d, x);
    hide TouchedByCut, IsEntity, Cut, RemovedIds, NodesAfter, Candidates, OntologyKeys;
    if TouchedByKeptSupport(nodes, edges, q, d, x) {
      var k :| k in edges && x in Ends(edges[k]) && Supports(edges[k], q) && !Cut(edges[k], q, g.removedIds, d.removedFacts);
      assert k in g.kept && g.kept[k] == edges[k];
    }
  }

  lemma CandidatesAre(nodes: map<string, Node>, edges: map<string, Edge>, q: Request, d: Decision, x: string)
    requires d.ontologyKeys == OntologyKeys(nodes, q, d.schemaPost)
    ensures x in GraphAfter(nodes, edges, q, d).candidates
      <==> x !in RemovedIds(nodes, q, d) && IsEntity(nodes, q, x) && TouchedByCut(nodes, edges, q, d, x)
  {
    hide Cut, OntologyKeys, RemovedIds;
    var key, pruned := StoreKey(q.corpusId, x), NodesAfter(nodes, q, d);
    if key in nodes {
      NodeAfterKeepsIds(key, nodes[key], q, d);
      if nodes[key].layer == "entity" {
        EntityStays(key, nodes[key], q, d, nodes);
      }
    }
    assert IsEntity(pruned, q, x) <==> IsEntity(nodes, q, x);
  }

  /** A node of another corpus that goes, as an unsupported mirror or as an orphaned entity. */
  ghost predicate DropsForeign(nodes: map<string, Node>, edges: map<string, Edge>, q: Request, d: Decision, k: string) {
    k in nodes && nodes[k].corpusId != q.corpusId
    && ((TakenForMirror(nodes, q, d, k) && Support(nodes[k], q, d).None?)
        || exists x :: k == StoreKey(q.corpusId, x) && Orphaned(nodes, edges, q, d, x))
  }

  /** A node of another corpus that is rewritten as a mirror. */
  predicate RewritesForeign(nodes: map<string, Node>, q: Request, d: Decision, k: string) {
    TakenForMirror(nodes, q, d, k) && OntologyRef(nodes[k], q, d) != nodes[k].ref
  }

  lemma ForeignNodeFate(nodes: map<string, Node>, edges: map<string, Edge>, q: Request, d: Decision, k: string)
    requires d.ontologyKeys == OntologyKeys(nodes, q, d.schemaPost) && k in nodes && nodes[k].corpusId != q.corpusId
    ensures var g := GraphAfter(nodes, edges, q, d);
      && (k in g.nodes <==> !DropsForeign(nodes, edges, q, d, k))
      && (k in g.nodes ==> (g.nodes[k] == nodes[k] <==> !RewritesForeign(nodes, q, d, k)))
  {
    hide OntologyRef, EdgesKept, Candidates, Supported, MirrorsPost, Orphaned;
    assert k in d.ontologyKeys <==> TakenForMirror(nodes, q, d, k);
    assert ScanFate(nodes[k], q) == Untouched;
    forall x ensures x in GraphAfter(nodes, edges, q, d).orphans <==> Orphaned(nodes, edges, q, d, x) {
      OrphansAre(nodes, edges, q, d, x);
    }
  }

  /** When no key of another corpus starts with the corpus and a colon, neither happens. */
  lemma NoForeignKeysSuffice(nodes: map<string, Node>, edges: map<string, Edge>, q: Request, d: Decision, k: string)
    requires NoForeignKeys(nodes, q.corpusId)
    ensures !DropsForeign(nodes, edges, q, d, k) && !RewritesForeign(nodes, q, d, k)
  {
    if k in nodes && nodes[k].corpusId != q.corpusId {
      forall x ensures k != StoreKey(q.corpusId, x) {
        StoreKeyPrefix(q.corpusId, x);
      }
    }
  }

  lemma NodeAfterKeepsIds(key: string, node: Node, q: Request, d: Decision)
    ensures var after := NodeAfter(key, node, q, d);
      after.Some? ==>
        && after.value.nodeId == node.nodeId && after.value.corpusId == node.corpusId && after.value.layer == node.layer
  {
  }

  /** An endpoint of an edge that stays is a node that stays, unless it belongs to another corpus and goes with this one. */
  lemma EndpointStays(nodes: map<string, Node>, edges: map<string, Edge>, q: Request, d: Decision, k: string, x: string)
    requires d.ontologyKeys == OntologyKeys(nodes, q, d.schemaPost)
    requires k in GraphAfter(nodes, edges, q, d).edges && x in Ends(edges[k]) && HasNode(nodes, edges[k].corpusId, x)
    ensures HasNode(GraphAfter(nodes, edges, q, d).nodes, edges[k].corpusId, x)
      <==> !DropsForeign(nodes, edges, q, d, StoreKey(edges[k].corpusId, x))
  {
    var g, e := GraphAfter(nodes, edges, q, d), edges[k];
    var key := StoreKey(e.corpusId, x);
    NodeAfterKeepsIds(key, nodes[key], q, d);
    if e.corpusId == q.corpusId {
      assert !Cut(e, q, g.removedIds, d.removedFacts);
      assert x !in g.removedIds;
      assert NodeAfter(key, nodes[key], q, d).Some?;
      if key in OrphanKeys(q, g.orphans) {
        var y :| y in g.orphans && StoreKey(q.corpusId, y) == key;
        StoreKeyInjective(q.corpusId, x, y);
        assert y in g.candidates && x in g.allRemoved;
        assert Touches(e, g.allRemoved);
        assert false;
      }
    } else {
      ForeignNodeFate(nodes, edges, q, d, key);
    }
  }

  /** No edge ends at a node of another corpus that the delete drops. */
  ghost predicate EndsSpared(s: Store, q: Request, d: Decision) {
    forall k, x :: k in s.edges && x in Ends(s.edges[k]) ==>
      !DropsForeign(s.nodes, s.edges, q, d, StoreKey(s.edges[k].corpusId, x))
  }

  /** The store invariant is kept if and only if no edge loses an endpoint to a shared key. */
  lemma KeepsStoreExactly(s: Store, q: Request, orders: Orders)
    requires StoreInvariant(s)
    ensures StoreInvariant(Delete(s, q, orders)) <==> EndsSpared(s, q, Decide(s, q))
  {
    hide Decide, GraphAfter, HasNode, Rekey, VectorAfter, SnapshotsAfter, DropsForeign;
    var d, t := Decide(s, q), Delete(s, q, orders);
    DecideKeys(s, q);
    forall k, x | k in s.edges && x in Ends(s.edges[k])
      ensures HasNode(s.nodes, s.edges[k].corpusId, x)
      ensures k in t.edges ==>
        t.edges[k] == s.edges[k]
        && (HasNode(t.nodes, s.edges[k].corpusId, x) <==> !DropsForeign(s.nodes, s.edges, q, d, StoreKey(s.edges[k].corpusId, x)))
      ensures k !in t.edges ==> !DropsForeign(s.nodes, s.edges, q, d, StoreKey(s.edges[k].corpusId, x))
    {
      if k in t.edges {
        EdgesAreOld(s.nodes, s.edges, q, d, k);
        EndpointStays(s.nodes, s.edges, q, d, k, x);
      } else {
        CutIsOwn(s.nodes, s.edges, q, d, k, x);
      }
    }
    forall k | k in t.edges ensures k in s.edges {
      EdgesAreOld(s.nodes, s.edges, q, d, k);
    }
  }

  lemma CutIsOwn(nodes: map<string, Node>, edges: map<string, Edge>, q: Request, d: Decision, k: string, x: string)
    requires k in edges && k !in GraphAfter(nodes, edges, q, d).edges && HasNode(nodes, edges[k].corpusId, x)
    ensures !DropsForeign(nodes, edges, q, d, StoreKey(edges[k].corpusId, x))
  {
    if edges[k].corpusId != q.corpusId {
      ForeignEdgeStays(nodes, edges, q, d, k);
    }
  }

  /** Deleting a document keeps the store invariant. */
  lemma DeleteKeepsStore(s: Store, q: Request, orders: Orders)
    requires StoreInvariant(s) && NoForeignKeys(s.nodes, q.corpusId)
    ensures StoreInvariant(Delete(s, q, orders))
  {
    hide Decide, Delete, StoreInvariant, DropsForeign, NoForeignKeys;
    KeepsStoreExactly(s, q, orders);
    forall k, x | k in s.edges && x in Ends(s.edges[k])
      ensures !DropsForeign(s.nodes, s.edges, q, Decide(s, q), StoreKey(s.edges[k].corpusId, x))
    {
      NoForeignKeysSuffice(s.nodes, s.edges, q, Decide(s, q), StoreKey(s.edges[k].corpusId, x));
    }
  }

  lemma DecideKeys(s: Store, q: Request)
    ensures Decide(s, q).ontologyKeys == OntologyKeys(s.nodes, q, Decide(s, q).schemaPost)
  {
    hide RemovedPassages, NodeFacts, Needed, SchemaPost, OntologyKeys, FactPost;
  }

  lemma EdgesAreOld(nodes: map<string, Node>, edges: map<string, Edge>, q: Request, d: Decision, k: string)
    requires k in GraphAfter(nodes, edges, q, d).edges
    ensures k in edges && GraphAfter(nodes, edges, q, d).edges[k] == edges[k]
  {
  }

  // ---------- other corpora ----------

  /** Records of other corpora are exactly as before. */
  ghost predicate OthersUnchanged(s: Store, t: Store, corpusId: string) {
    && ForeignNodesKept(s.nodes, t.nodes, corpusId)
    && (forall k :: k in t.nodes && t.nodes[k].corpusId != corpusId ==> k in s.nodes && s.nodes[k].corpusId != corpusId)
    && ForeignRestKept(s, t, corpusId)
  }

  ghost predicate ForeignNodesKept(nodes: map<string, Node>, after: map<string, Node>, corpusId: string) {
    forall k :: k in nodes && nodes[k].corpusId != corpusId ==> k in after && after[k] == nodes[k]
  }

  ghost predicate ForeignRestKept(s: Store, t: Store, corpusId: string) {
    && (forall k :: k in s.edges && s.edges[k].corpusId != corpusId ==> k in t.edges && t.edges[k] == s.edges[k])
    && (forall k :: k in t.edges ==> k in s.edges && t.edges[k] == s.edges[k])
    && (forall k :: k in s.vectors && s.vectors[k].corpusId != corpusId ==> k in t.vectors && t.vectors[k] == s.vectors[k])
    && (forall k :: k in s.vectors && s.vectors[k].corpusId != corpusId && k in s.values ==>
          k in t.values && t.values[k] == s.values[k])
    && (forall k :: k in s.passages && s.passages[k].corpusId != corpusId ==> k in t.passages && t.passages[k] == s.passages[k])
    && (forall c :: c != corpusId ==>
          (c in t.snapshots <==> c in s.snapshots) && (c in s.snapshots ==> t.snapshots[c] == s.snapshots[c]))
  }

  lemma NodesAreOld(nodes: map<string, Node>, edges: map<string, Edge>, q: Request, d: Decision, k: string)
    requires k in GraphAfter(nodes, edges, q, d).nodes
    ensures k in nodes && NodeAfter(k, nodes[k], q, d) == Some(GraphAfter(nodes, edges, q, d).nodes[k])
    ensures GraphAfter(nodes, edges, q, d).nodes[k].corpusId == nodes[k].corpusId
  {
    NodeAfterKeepsIds(k, nodes[k], q, d);
  }

  lemma ForeignEdgeStays(nodes: map<string, Node>, edges: map<string, Edge>, q: Request, d: Decision, k: string)
    requires k in edges && edges[k].corpusId != q.corpusId
    ensures k in GraphAfter(nodes, edges, q, d).edges
  {
  }

  /** No node of another corpus is taken for one of this corpus. */
  ghost predicate NodesSpared(s: Store, q: Request, d: Decision) {
    forall k :: k in s.nodes ==> !DropsForeign(s.nodes, s.edges, q, d, k) && !RewritesForeign(s.nodes, q, d, k)
  }

  lemma ForeignNodesExactly(s: Store, q: Request, d: Decision)
    requires d.ontologyKeys == OntologyKeys(s.nodes, q, d.schemaPost)
    ensures ForeignNodesKept(s.nodes, GraphAfter(s.nodes, s.edges, q, d).nodes, q.corpusId) <==> NodesSpared(s, q, d)
  {
    hide GraphAfter, OntologyRef, Support, OrphanKeys, MirrorsPost;
    forall k | k in s.nodes && s.nodes[k].corpusId != q.corpusId
      ensures var after := GraphAfter(s.nodes, s.edges, q, d).nodes;
        (k in after && after[k] == s.nodes[k])
        <==> !DropsForeign(s.nodes, s.edges, q, d, k) && !RewritesForeign(s.nodes, q, d, k)
    {
      ForeignNodeFate(s.nodes, s.edges, q, d, k);
    }
  }

  /** Records of other corpora are unchanged if and only if none of their nodes is taken for one of this corpus. */
  lemma SparesOthersExactly(s: Store, q: Request, orders: Orders)
    ensures OthersUnchanged(s, Delete(s, q, orders), q.corpusId) <==> NodesSpared(s, q, Decide(s, q))
  {
    hide Decide, Delete, GraphAfter, NodesSpared, ForeignNodesKept, ForeignRestKept;
    var d, t := Decide(s, q), Delete(s, q, orders);
    DecideKeys(s, q);
    DeleteGraph(s, q, orders);
    ForeignNodesExactly(s, q, d);
    ForeignRestStays(s, q, orders);
    forall k | k in t.nodes && t.nodes[k].corpusId != q.corpusId ensures k in s.nodes && s.nodes[k].corpusId != q.corpusId {
      NodesAreOld(s.nodes, s.edges, q, d, k);
    }
  }

  lemma DeleteGraph(s: Store, q: Request, orders: Orders)
    ensures var t, g := Delete(s, q, orders), GraphAfter(s.nodes, s.edges, q, Decide(s, q));
      t.nodes == g.nodes && t.edges == g.edges
  {
    hide Decide, GraphAfter, Rekey, VectorsAfter, DroppedVectors, PassagesAfter, SnapshotsAfter;
  }

  lemma ForeignRestStays(s: Store, q: Request, orders: Orders)
    ensures ForeignRestKept(s, Delete(s, q, orders), q.corpusId)
  {
    hide Decide, GraphAfter, Rekey, SnapshotAfter;
    var d, t := Decide(s, q), Delete(s, q, orders);
    forall k | k in s.edges && s.edges[k].corpusId != q.corpusId ensures k in t.edges && t.edges[k] == s.edges[k] {
      ForeignEdgeStays(s.nodes, s.edges, q, d, k);
      EdgesAreOld(s.nodes, s.edges, q, d, k);
    }
    forall k | k in t.edges ensures k in s.edges && t.edges[k] == s.edges[k] {
      EdgesAreOld(s.nodes, s.edges, q, d, k);
    }
  }

  lemma DeleteSparesOthers(s: Store, q: Request, orders: Orders)
    requires NoForeignKeys(s.nodes, q.corpusId)
    ensures OthersUnchanged(s, Delete(s, q, orders), q.corpusId)
  {
    hide Decide, Delete, OthersUnchanged, DropsForeign, RewritesForeign, NoForeignKeys;
    SparesOthersExactly(s, q, orders);
    forall k | k in s.nodes
      ensures !DropsForeign(s.nodes, s.edges, q, Decide(s, q), k) && !RewritesForeign(s.nodes, q, Decide(s, q), k)
    {
      NoForeignKeysSuffice(s.nodes, s.edges, q, Decide(s, q), k);
    }
  }

  // ---------- the counters ----------

  lemma {:induction false} DisjointSizes<T>(a: set<T>, b: set<T>)
    requires a !! b
    ensures |a + b| == |a| + |b|
  {
  }

  lemma {:induction false} OrphanKeysSize(q: Request, orphans: set<string>)
    ensures |OrphanKeys(q, orphans)| == |orphans|
  {
    if orphans != {} {
      var x :| x in orphans;
      OrphanKeysSize(q, orphans - {x});
      var rest := OrphanKeys(q, orphans - {x});
      if StoreKey(q.corpusId, x) in rest {
        var y :| y in orphans - {x} && StoreKey(q.corpusId, y) == StoreKey(q.corpusId, x);
        StoreKeyInjective(q.corpusId, x, y);
      }
      assert OrphanKeys(q, orphans) == rest + {StoreKey(q.corpusId, x)};
    }
  }

  /** The keys that leave, by reason. */
  lemma OrphansArePruned(nodes: map<string, Node>, edges: map<string, Edge>, q: Request, d: Decision)
    ensures var g := GraphAfter(nodes, edges, q, d); OrphanKeys(q, g.orphans) <= g.pruned.Keys
  {
    hide NodesAfter, RemovedIds, Cut, EdgesKept, EdgesApart, Supported;
    var g := GraphAfter(nodes, edges, q, d);
    forall k | k in OrphanKeys(q, g.orphans) ensures k in g.pruned {
      var x :| x in g.orphans && StoreKey(q.corpusId, x) == k;
      assert x in g.candidates;
      assert IsEntity(g.pruned, q, x);
    }
  }

  lemma NodesLeave(nodes: map<string, Node>, edges: map<string, Edge>, q: Request, d: Decision)
    ensures var g := GraphAfter(nodes, edges, q, d);
      var owned, unsupported, orphans := Fated(nodes, q, d, Owned), Unsupported(nodes, q, d), OrphanKeys(q, g.orphans);
      && owned !! unsupported && (owned + unsupported) !! orphans && (owned + unsupported + orphans) !! g.nodes.Keys
      && nodes.Keys == owned + unsupported + orphans + g.nodes.Keys
  {
    hide FinalFate, Support, Candidates, Supported, OrphanKeys, EdgesKept, EdgesApart;
    var g := GraphAfter(nodes, edges, q, d);
    var owned, unsupported, orphans := Fated(nodes, q, d, Owned), Unsupported(nodes, q, d), OrphanKeys(q, g.orphans);
    OrphansArePruned(nodes, edges, q, d);
    forall k | k in g.pruned ensures k in nodes && k !in owned && k !in unsupported {
    }
    forall k | k in nodes ensures k in owned || k in unsupported || k in g.pruned {
    }
    assert g.nodes.Keys == g.pruned.Keys - orphans;
  }

  lemma FateSizes(nodes: map<string, Node>, q: Request, d: Decision, c: Counts)
    requires var owned := Fated(nodes, q, d, Owned);
      && c.removedPassageNodes == |OfLayer(nodes, owned, "passage")|
      && c.removedFactNodes == |OfLayer(nodes, owned, "fact")|
      && c.removedOtherNodes == |owned - OfLayer(nodes, owned, "passage") - OfLayer(nodes, owned, "fact")|
    ensures c.removedPassageNodes + c.removedFactNodes + c.removedOtherNodes == |Fated(nodes, q, d, Owned)|
  {
    hide Fated, OfLayer;
    var owned := Fated(nodes, q, d, Owned);
    LayersApart(nodes, owned);
    PartsAdd(owned, OfLayer(nodes, owned, "passage"), OfLayer(nodes, owned, "fact"));
  }

  lemma LayersApart(nodes: map<string, Node>, keys: set<string>)
    ensures var a, b := OfLayer(nodes, keys, "passage"), OfLayer(nodes, keys, "fact");
      a <= keys && b <= keys && a !! b
  {
  }

  lemma PartsAdd<T>(all: set<T>, a: set<T>, b: set<T>)
    requires a <= all && b <= all && a !! b
    ensures |a| + |b| + |all - a - b| == |all|
  {
    DisjointSizes(a, b);
    DisjointSizes(a + b, all - a - b);
    assert all == a + b + (all - a - b);
  }

  lemma SubmapSize<V>(now: map<string, V>, was: map<string, V>)
    requires now.Keys <= was.Keys
    ensures |now| <= |was|
  {
    SubsetSize(now.Keys, was.Keys);
    assert |now.Keys| == |now| && |was.Keys| == |was|;
  }

  /** The stores shrink by exactly what the report says. */
  lemma CountersMatch(s: Store, q: Request, orders: Orders)
    ensures var t, c := Delete(s, q, orders), Report(s, q, orders);
      && |s.nodes| == |t.nodes| + c.removedPassageNodes + c.removedFactNodes + c.removedOtherNodes
                      + c.removedEntityNodes + c.removedOntologyNodes
      && |s.edges| == |t.edges| + c.removedEdges
      && |s.vectors| == |t.vectors| + c.removedVectors
      && |s.passages| == |t.passages| + c.removedLexicalPassages
  {
    hide Decide, GraphAfter, Rekey, SnapshotsAfter, VectorAfter, FinalFate, Support, SharedFacts, AffectedSchemas, AdjustedSchemas;
    var d, t, c := Decide(s, q), Delete(s, q, orders), Report(s, q, orders);
    NodeCountersMatch(s.nodes, s.edges, q, d, c);
    EdgeKeysAreOld(s.nodes, s.edges, q, d);
    SubmapSize(t.edges, s.edges);
    VectorCountersMatch(s.vectors, q, GraphAfter(s.nodes, s.edges, q, d).allRemoved, Rekey(s.nodes, q, d, orders));
    SubmapSize(t.passages, s.passages);
  }

  lemma EdgeKeysAreOld(nodes: map<string, Node>, edges: map<string, Edge>, q: Request, d: Decision)
    ensures GraphAfter(nodes, edges, q, d).edges.Keys <= edges.Keys
  {
    hide GraphAfter;
    forall k | k in GraphAfter(nodes, edges, q, d).edges ensures k in edges {
      EdgesAreOld(nodes, edges, q, d, k);
    }
  }

  lemma NodeCountersMatch(nodes: map<string, Node>, edges: map<string, Edge>, q: Request, d: Decision, c: Counts)
    requires var owned := Fated(nodes, q, d, Owned);
      && c.removedPassageNodes == |OfLayer(nodes, owned, "passage")|
      && c.removedFactNodes == |OfLayer(nodes, owned, "fact")|
      && c.removedOtherNodes == |owned - OfLayer(nodes, owned, "passage") - OfLayer(nodes, owned, "fact")|
    requires c.removedEntityNodes == |GraphAfter(nodes, edges, q, d).orphans|
    requires c.removedOntologyNodes == |Unsupported(nodes, q, d)|
    ensures |nodes| == |GraphAfter(nodes, edges, q, d).nodes| + c.removedPassageNodes + c.removedFactNodes + c.removedOtherNodes
                       + c.removedEntityNodes + c.removedOntologyNodes
  {
    hide GraphAfter, FinalFate, Support, Fated, Unsupported, OrphanKeys;
    var g := GraphAfter(nodes, edges, q, d);
    var owned, unsupported, orphans := Fated(nodes, q, d, Owned), Unsupported(nodes, q, d), OrphanKeys(q, g.orphans);
    NodesLeave(nodes, edges, q, d);
    FateSizes(nodes, q, d, c);
    OrphanKeysSize(q, g.orphans);
    DisjointSizes(owned, unsupported);
    DisjointSizes(owned + unsupported, orphans);
    DisjointSizes(owned + unsupported + orphans, g.nodes.Keys);
    assert |nodes.Keys| == |nodes| && |g.nodes.Keys| == |g.nodes|;
  }

  lemma VectorCountersMatch(vectors: map<string, Vector>, q: Request, removedIds: set<string>, rekey: map<string, string>)
    ensures |vectors| == |VectorsAfter(vectors, q, removedIds, rekey)| + |DroppedVectors(vectors, q, removedIds, rekey)|
  {
    hide VectorAfter;
    var after, dropped := VectorsAfter(vectors, q, removedIds, rekey), DroppedVectors(vectors, q, removedIds, rekey);
    DisjointSizes(after.Keys, dropped);
    assert vectors.Keys == after.Keys + dropped;
    assert |after.Keys| == |after| && |vectors.Keys| == |vectors|;
  }

  // ---------- one orphan round ----------

  /** Some mention or co-occurrence edge of the corpus touches the entity. */
  ghost predicate IsSupported(edges: map<string, Edge>, q: Request, x: string) {
    exists k :: k in edges && Supports(edges[k], q) && x in Ends(edges[k])
  }

  /**
    An entity that lost an edge to the removed nodes or facts survives exactly
    when the final edges still mention it: removing the orphans' other edges
    never takes the last support of a survivor.
   */
  lemma OrphanRoundIsFixpoint(nodes: map<string, Node>, edges: map<string, Edge>, q: Request, d: Decision, x: string)
    requires x in GraphAfter(nodes, edges, q, d).candidates
    ensures var g := GraphAfter(nodes, edges, q, d);
      StoreKey(q.corpusId, x) in g.nodes <==> IsSupported(g.edges, q, x)
  {
    var g := GraphAfter(nodes, edges, q, d);
    var key := StoreKey(q.corpusId, x);
    assert IsEntity(g.pruned, q, x);
    if key in g.nodes {
      assert x !in g.orphans;
      var k :| k in g.kept && Supports(g.kept[k], q) && x in Ends(g.kept[k]);
      KeptSupportStays(nodes, edges, q, d, k);
    } else {
      var y :| y in g.orphans && StoreKey(q.corpusId, y) == key;
      StoreKeyInjective(q.corpusId, x, y);
      SupportIsSeen(nodes, edges, q, d, x);
    }
  }

  lemma SupportIsSeen(nodes: map<string, Node>, edges: map<string, Edge>, q: Request, d: Decision, x: string)
    requires x in GraphAfter(nodes, edges, q, d).candidates
    ensures var g := GraphAfter(nodes, edges, q, d);
      IsSupported(g.edges, q, x) ==> x in Supported(g.kept, q, g.candidates)
  {
  }

  /** A supporting edge that survives the cut touches no orphan. */
  lemma KeptSupportStays(nodes: map<string, Node>, edges: map<string, Edge>, q: Request, d: Decision, k: string)
    requires var g := GraphAfter(nodes, edges, q, d); k in g.kept && Supports(g.kept[k], q)
    ensures var g := GraphAfter(nodes, edges, q, d); k in g.edges && g.edges[k] == g.kept[k]
  {
    var g := GraphAfter(nodes, edges, q, d);
    var e := g.kept[k];
    forall x | x in Ends(e) ensures x !in g.allRemoved {
      assert !Cut(e, q, g.removedIds, d.removedFacts);
      assert x !in g.removedIds;
      if x in g.candidates {
        assert x in Supported(g.kept, q, g.candidates);
      }
    }
    assert e.sourceNodeId in Ends(e) && e.targetNodeId in Ends(e);
  }

  /** No removed node has the entity's id, and a cut edge or a mention outside the cut touches it. */
  ghost predicate RuleApplies(nodes: map<string, Node>, edges: map<string, Edge>, q: Request, d: Decision, x: string) {
    x !in RemovedIds(nodes, q, d) && (TouchedByCut(nodes, edges, q, d, x) || TouchedByKeptSupport(nodes, edges, q, d, x))
  }

  /**
    For every entity node of a store, "it survives exactly when it is still
    mentioned" holds if and only if, in the store before the delete, a cut edge
    or a mention outside the cut touches it. An entity with neither survives
    unmentioned, even when its last plain edge goes with an orphan.
   */
  lemma OrphanRuleExact(s: Store, q: Request, orders: Orders, x: string)
    requires IsEntity(s.nodes, q, x)
    ensures var t := Delete(s, q, orders);
      (StoreKey(q.corpusId, x) in t.nodes <==> IsSupported(t.edges, q, x))
      <==> RuleApplies(s.nodes, s.edges, q, Decide(s, q), x)
  {
    hide Decide, Rekey, VectorsAfter, DroppedVectors, PassagesAfter, SnapshotsAfter, GraphAfter, IsSupported, RuleApplies;
    DecideKeys(s, q);
    GraphRuleExact(s.nodes, s.edges, q, Decide(s, q), x);
  }

  lemma GraphRuleExact(nodes: map<string, Node>, edges: map<string, Edge>, q: Request, d: Decision, x: string)
    requires d.ontologyKeys == OntologyKeys(nodes, q, d.schemaPost) && IsEntity(nodes, q, x)
    ensures var g := GraphAfter(nodes, edges, q, d);
      (StoreKey(q.corpusId, x) in g.nodes <==> IsSupported(g.edges, q, x)) <==> RuleApplies(nodes, edges, q, d, x)
  {
    var g, key := GraphAfter(nodes, edges, q, d), StoreKey(q.corpusId, x);
    CandidatesAre(nodes, edges, q, d, x);
    SupportAfter(nodes, edges, q, d, x);
    EntityStays(key, nodes[key], q, d, nodes);
    hide OntologyKeys, RemovedIds, TouchedByCut, TouchedByKeptSupport, IsSupported, Candidates, Supported, EdgesKept, EdgesApart;
    if x in g.candidates {
      OrphanRoundIsFixpoint(nodes, edges, q, d, x);
    } else if key in OrphanKeys(q, g.orphans) {
      var y :| y in g.orphans && StoreKey(q.corpusId, y) == key;
      StoreKeyInjective(q.corpusId, x, y);
      assert false;
    }
  }

  /** The mentions of the final graph are the mentions outside the cut. */
  lemma SupportAfter(nodes: map<string, Node>, edges: map<string, Edge>, q: Request, d: Decision, x: string)
    ensures IsSupported(GraphAfter(nodes, edges, q, d).edges, q, x) <==> TouchedByKeptSupport(nodes, edges, q, d, x)
    ensures x in RemovedIds(nodes, q, d) ==> !TouchedByKeptSupport(nodes, edges, q, d, x)
  {
    var g := GraphAfter(nodes, edges, q, d);
    if TouchedByKeptSupport(nodes, edges, q, d, x) {
      var k :| k in edges && x in Ends(edges[k]) && Supports(edges[k], q) && !Cut(edges[k], q, g.removedIds, d.removedFacts);
      assert k in g.kept;
      KeptSupportStays(nodes, edges, q, d, k);
    }
    if IsSupported(g.edges, q, x) {
      var k :| k in g.edges && Supports(g.edges[k], q) && x in Ends(g.edges[k]);
      assert k in g.kept && g.kept[k] == edges[k];
    }
  }

  // ---------- the snapshot after the delete ----------

  /** The three sections after the delete are the three rewritten sections. */
  lemma SectionsAfter(s: Store, q: Request, orders: Orders)
    ensures var t, d := Delete(s, q, orders), Decide(s, q);
      var passages, facts, schemas := SnapshotItems(s, q.corpusId, "passages"), SnapshotItems(s, q.corpusId, "facts"),
        SnapshotItems(s, q.corpusId, "schemas");
      && SnapshotItems(t, q.corpusId, "passages") == PassagesKept(passages, q)
      && SnapshotItems(t, q.corpusId, "facts") == FactsAfter(facts, q, d.removedPassages, |facts|)
      && SnapshotItems(t, q.corpusId, "schemas") == SchemasAfter(schemas, q, d.removedFacts, d.touched)
  {
    hide Decide, GraphAfter, Rekey, VectorsAfter, DroppedVectors, PassagesAfter, PassagesKept, FactsAfter, SchemasAfter;
    var d := Decide(s, q);
    if q.corpusId in s.snapshots {
      var v := s.snapshots[q.corpusId];
      var passages, facts, schemas := SnapshotItems(s, q.corpusId, "passages"), SnapshotItems(s, q.corpusId, "facts"),
        SnapshotItems(s, q.corpusId, "schemas");
      var once := WithItems(v, "passages", PassagesKept(passages, q));
      var twice := WithItems(once, "facts", FactsAfter(facts, q, d.removedPassages, |facts|));
      var thrice := WithItems(twice, "schemas", SchemasAfter(schemas, q, d.removedFacts, d.touched));
      WithItemsReads(v, "passages", PassagesKept(passages, q), "facts", "schemas");
      WithItemsReads(once, "facts", FactsAfter(facts, q, d.removedPassages, |facts|), "passages", "schemas");
      WithItemsReads(twice, "schemas", SchemasAfter(schemas, q, d.removedFacts, d.touched), "passages", "facts");
      assert SnapshotsAfter(s, q, d)[q.corpusId] == thrice;
    }
    NothingAfter(q, d);
  }

  lemma NothingAfter(q: Request, d: Decision)
    ensures PassagesKept([], q) == [] && FactsAfter([], q, d.removedPassages, 0) == []
    ensures SchemasAfter([], q, d.removedFacts, d.touched) == []
  {
  }

  lemma WithItemsReads(v: Json, section: string, items: seq<Json>, other: string, another: string)
    requires section != other && section != another
    ensures GetArray(WithItems(v, section, items), section) == if GetArray(v, section).Some? then Some(items) else None
    ensures GetArray(WithItems(v, section, items), other) == GetArray(v, other)
    ensures GetArray(WithItems(v, section, items), another) == GetArray(v, another)
  {
  }

  // ---------- erasure ----------

  /** Nothing of the corpus names the document any more. */
  ghost predicate Erased(t: Store, q: Request) {
    && (forall p :: p in SnapshotItems(t, q.corpusId, "passages") ==> !OwnedPassage(p, q))
    && (forall f :: f in SnapshotItems(t, q.corpusId, "facts") ==> !Lists(f, "sourceDocumentIds", q.documentId))
    && (forall c :: c in SnapshotItems(t, q.corpusId, "schemas") && GetStr(c, "schemaId").Some? ==>
          !Lists(c, "sourceDocumentIds", q.documentId))
    && (forall k :: k in t.nodes && t.nodes[k].corpusId == q.corpusId && t.nodes[k].layer != "entity" ==>
          q.documentId !in DocIds(t.nodes[k].ref))
    && (forall k :: k in t.vectors && t.vectors[k].corpusId == q.corpusId ==>
          GetStr(t.vectors[k].metadata, "documentId") != Some(q.documentId))
    && (forall k :: k in t.passages ==> !(t.passages[k].corpusId == q.corpusId && t.passages[k].documentId == q.documentId))
  }

  lemma SnapshotErased(s: Store, q: Request, d: Decision, v: Json)
    ensures var passages, facts := SnapshotItems(s, q.corpusId, "passages"), SnapshotItems(s, q.corpusId, "facts");
      && (v in PassagesKept(passages, q) ==> !OwnedPassage(v, q))
      && (v in FactsAfter(facts, q, d.removedPassages, |facts|) ==> !Lists(v, "sourceDocumentIds", q.documentId))
    ensures var schemas := SnapshotItems(s, q.corpusId, "schemas");
      v in SchemasAfter(schemas, q, d.removedFacts, d.touched) && GetStr(v, "schemaId").Some? ==>
        !Lists(v, "sourceDocumentIds", q.documentId)
  {
    hide FactAfter, SchemaAfter, OwnedPassage, Lists;
    var passages, facts := SnapshotItems(s, q.corpusId, "passages"), SnapshotItems(s, q.corpusId, "facts");
    FilterMembers((p: Json) => !OwnedPassage(p, q), passages, v);
    FactsAfterMembers(facts, q, d.removedPassages, |facts|, v);
    if v in FactsAfter(facts, q, d.removedPassages, |facts|) {
      var i :| 0 <= i < |facts| && Becomes(facts[i], q, d.removedPassages, v);
      BecomesErased(facts[i], q, d.removedPassages, v);
    }
    SchemasErased(SnapshotItems(s, q.corpusId, "schemas"), q, d, v);
  }

  lemma BecomesErased(fact: Json, q: Request, removedPassages: set<string>, after: Json)
    requires Becomes(fact, q, removedPassages, after)
    ensures !Lists(after, "sourceDocumentIds", q.documentId)
  {
    if FactAfter(fact, q, removedPassages).Pruned? {
      FactAfterLists(fact, q, removedPassages, q.documentId);
    }
  }

  lemma SchemasErased(schemas: seq<Json>, q: Request, d: Decision, v: Json)
    ensures v in SchemasAfter(schemas, q, d.removedFacts, d.touched) && GetStr(v, "schemaId").Some? ==>
      !Lists(v, "sourceDocumentIds", q.documentId)
  {
    hide SchemaAfter, Lists;
    var after := SchemasAfter(schemas, q, d.removedFacts, d.touched);
    if v in after && GetStr(v, "schemaId").Some? {
      var i :| 0 <= i < |after| && after[i] == v;
      SchemaIdKept(schemas[i], q, d);
      SchemaAfterLists(schemas[i], q, d.removedFacts, d.touched, q.documentId);
    }
  }

  lemma SchemaIdKept(schema: Json, q: Request, d: Decision)
    ensures GetStr(SchemaAfter(schema, q, d.removedFacts, d.touched), "schemaId") == GetStr(schema, "schemaId")
  {
    if GetStr(schema, "schemaId").Some? {
      SchemaAfterLists(schema, q, d.removedFacts, d.touched, "");
    }
  }

  /** The mirrors handed to the graph name the document no more than the snapshot does. */
  ghost predicate PostErased(q: Request, d: Decision) {
    && (forall id :: id in d.factPost ==>
          !Lists(d.factPost[id], "sourceDocumentIds", q.documentId) && GetArray(d.factPost[id], "sourceDocumentIds").Some?)
    && (forall id :: id in d.schemaPost ==> !Lists(d.schemaPost[id], "sourceDocumentIds", q.documentId))
  }

  lemma DecisionErased(s: Store, q: Request)
    ensures PostErased(q, Decide(s, q))
  {
    hide RemovedPassages, NodeFacts, Needed, OntologyKeys, DroppedFacts, TouchedSchemas, SchemaPost, FactPost, Lists,
      FactAfter, SchemaAfter;
    var d := Decide(s, q);
    var facts, schemas := SnapshotItems(s, q.corpusId, "facts"), SnapshotItems(s, q.corpusId, "schemas");
    forall id | id in d.factPost
      ensures !Lists(d.factPost[id], "sourceDocumentIds", q.documentId) && GetArray(d.factPost[id], "sourceDocumentIds").Some?
    {
      FactPostKnown(facts, q, d.removedPassages, |facts|, id);
      var i :| 0 <= i < |facts| && MakesPost(facts[i], q, d.removedPassages, id, d.factPost[id]);
      FactAfterLists(facts[i], q, d.removedPassages, q.documentId);
    }
    forall id | id in d.schemaPost ensures !Lists(d.schemaPost[id], "sourceDocumentIds", q.documentId) {
      SchemaPostKnown(schemas, q, d.removedFacts, d.touched, d.needed, |schemas|, id);
      var i :| 0 <= i < |schemas| && MakesSchema(schemas[i], q, d.removedFacts, d.touched, id, d.schemaPost[id]);
      SchemaAfterLists(schemas[i], q, d.removedFacts, d.touched, q.documentId);
    }
  }

  /** A surviving node that is no entity names other documents only. */
  lemma NodeErased(key: string, node: Node, q: Request, d: Decision, nodes: map<string, Node>)
    requires PostErased(q, d) && d.ontologyKeys == OntologyKeys(nodes, q, d.schemaPost) && key in nodes && nodes[key] == node
    requires node.corpusId == q.corpusId && node.layer != "entity" && NodeAfter(key, node, q, d).Some?
    ensures q.documentId !in DocIds(NodeAfter(key, node, q, d).value.ref)
  {
    hide DocIds, Lists, PruneField, Stamp;
    var ref := NodeAfter(key, node, q, d).value.ref;
    if key in d.ontologyKeys {
      RefPruned(node.ref, q, "factIds", d.removedFacts);
      FirstStringListed(ref, "sourceDocumentIds");
      DocIdsListed(ref, q.documentId);
    } else if node.layer == "ontology" {
      assert !NamesDocument(node, q);
    } else if FinalFate(node, q, d) == Shared {
      RefPruned(node.ref, q, "passageIds", d.removedPassages);
      DocIdsListed(ref, q.documentId);
    } else {
      assert ScanFate(node, q) == Untouched;
      UntouchedNode(node, q);
    }
  }

  lemma UntouchedNode(node: Node, q: Request)
    requires node.corpusId == q.corpusId && node.layer != "ontology" && node.layer != "entity" && ScanFate(node, q) == Untouched
    ensures q.documentId !in DocIds(node.ref)
  {
    if GetArray(node.ref, "sourceDocumentIds").Some? {
      DocIdsListed(node.ref, q.documentId);
    }
  }

  /** No re-keyed vector points back to the document. */
  ghost predicate RekeyErased(rekey: map<string, string>, q: Request) {
    forall x :: x in rekey ==> rekey[x] != q.documentId
  }

  lemma FirstStringElsewhere(ref: Json, documentId: string)
    requires !Lists(ref, "sourceDocumentIds", documentId)
    ensures FirstString(ref, "sourceDocumentIds") != Some(documentId)
  {
    FirstStringListed(ref, "sourceDocumentIds");
  }

  lemma SharedElsewhere(node: Node, q: Request, d: Decision)
    requires PostErased(q, d)
    ensures FirstString(SharedRef(node, q, d), "sourceDocumentIds") != Some(q.documentId)
    ensures Support(node, q, d) != Some(q.documentId)
  {
    hide Lists, PruneField, Stamp, FirstString;
    RefPruned(node.ref, q, "passageIds", d.removedPassages);
    RefPruned(node.ref, q, "factIds", d.removedFacts);
    FirstStringElsewhere(SharedRef(node, q, d), q.documentId);
    FirstStringElsewhere(OntologyRef(node, q, d), q.documentId);
  }

  lemma {:induction false} RekeySharedErased(rekey: map<string, string>, nodes: map<string, Node>, q: Request, d: Decision,
                                             order: seq<string>, k: nat)
    requires k <= |order| && RekeyErased(rekey, q) && PostErased(q, d)
    ensures RekeyErased(RekeyShared(rekey, nodes, q, d, order, k), q)
  {
    hide SharedRef, FinalFate, PostErased, FirstString;
    if k > 0 {
      RekeySharedErased(rekey, nodes, q, d, order, k - 1);
      if order[k - 1] in nodes {
        SharedElsewhere(nodes[order[k - 1]], q, d);
      }
    }
  }

  lemma {:induction false} RekeyOntologyErased(rekey: map<string, string>, nodes: map<string, Node>, q: Request, d: Decision,
                                               order: seq<string>, k: nat)
    requires k <= |order| && RekeyErased(rekey, q) && PostErased(q, d)
    ensures RekeyErased(RekeyOntology(rekey, nodes, q, d, order, k), q)
  {
    hide Support, PostErased;
    if k > 0 {
      RekeyOntologyErased(rekey, nodes, q, d, order, k - 1);
      if order[k - 1] in nodes {
        SharedElsewhere(nodes[order[k - 1]], q, d);
      }
    }
  }

  lemma RekeyIsErased(s: Store, q: Request, orders: Orders)
    ensures RekeyErased(Rekey(s.nodes, q, Decide(s, q), orders), q)
  {
    hide Decide, RekeyShared, RekeyOntology, Lists, FirstString;
    var d := Decide(s, q);
    DecisionErased(s, q);
    var base := RekeySchemas(d.schemaPost);
    forall x | x in base ensures base[x] != q.documentId {
      var id :| id in d.schemaPost && x == "schema:" + id;
      assert StripSchema(x) == id;
      FirstStringElsewhere(d.schemaPost[id], q.documentId);
    }
    var fated, listed := orders(0, FatedKeys(s.nodes, q)), orders(1, d.ontologyKeys);
    RekeySharedErased(base, s.nodes, q, d, fated, |fated|);
    RekeyOntologyErased(RekeyShared(base, s.nodes, q, d, fated, |fated|), s.nodes, q, d, listed, |listed|);
  }

  lemma VectorErased(v: Vector, q: Request, removedIds: set<string>, rekey: map<string, string>)
    requires RekeyErased(rekey, q) && v.corpusId == q.corpusId && VectorAfter(v, q, removedIds, rekey).Some?
    ensures GetStr(VectorAfter(v, q, removedIds, rekey).value.metadata, "documentId") != Some(q.documentId)
  {
  }

  /** After a delete nothing of the corpus names the document. */
  lemma DeleteErases(s: Store, q: Request, orders: Orders)
    ensures Erased(Delete(s, q, orders), q)
  {
    hide Decide, GraphAfter, Rekey, SnapshotItems, VectorAfter, DocIds, SnapshotsAfter, PassagesKept, FactsAfter, SchemasAfter,
      OwnedPassage, Lists, NodeAfter;
    var t, d := Delete(s, q, orders), Decide(s, q);
    var removed, rekey := GraphAfter(s.nodes, s.edges, q, d).allRemoved, Rekey(s.nodes, q, d, orders);
    SectionsAfter(s, q, orders);
    forall v ensures (v in SnapshotItems(t, q.corpusId, "passages") ==> !OwnedPassage(v, q))
      && (v in SnapshotItems(t, q.corpusId, "facts") ==> !Lists(v, "sourceDocumentIds", q.documentId))
      && (v in SnapshotItems(t, q.corpusId, "schemas") && GetStr(v, "schemaId").Some? ==>
            !Lists(v, "sourceDocumentIds", q.documentId)) {
      SnapshotErased(s, q, d, v);
    }
    DecideKeys(s, q);
    DecisionErased(s, q);
    forall k | k in t.nodes && t.nodes[k].corpusId == q.corpusId && t.nodes[k].layer != "entity"
      ensures q.documentId !in DocIds(t.nodes[k].ref)
    {
      NodesAreOld(s.nodes, s.edges, q, d, k);
      NodeAfterKeepsIds(k, s.nodes[k], q, d);
      NodeErased(k, s.nodes[k], q, d, s.nodes);
    }
    RekeyIsErased(s, q, orders);
    forall k | k in t.vectors && t.vectors[k].corpusId == q.corpusId
      ensures GetStr(t.vectors[k].metadata, "documentId") != Some(q.documentId)
    {
      VectorKeepsCorpus(s.vectors[k], q, removed, rekey);
      VectorErased(s.vectors[k], q, removed, rekey);
    }
  }

  lemma VectorKeepsCorpus(v: Vector, q: Request, removedIds: set<string>, rekey: map<string, string>)
    ensures VectorAfter(v, q, removedIds, rekey).Some? ==> VectorAfter(v, q, removedIds, rekey).value.corpusId == v.corpusId
  {
  }
}
