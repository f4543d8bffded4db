/**
  The stores after a delete, record by record: which nodes, edges, entities and
  vectors stay, and as what, told from the store before and the store after.
 */
module DeleteOutcome {
  import opened Wrappers
  import opened Text
  import opened Json
  import opened DeleteSpec
  import opened DeleteProofs
  import opened DeleteMeaning

  // ---------- nodes ----------

  /**
    A node that names the document goes unless another document supports it; a
    fact node goes with its fact or its last passage.
   */
  ghost predicate NodeGoes(n: Node, q: Request, d: Decision) {
    || !NamesOther(n.ref, q.documentId)
    || (n.layer == "fact"
        && (Ungrounded(n.ref, d.removedPassages) || exists f :: f in d.removedFacts && Says(n.ref, "factId", f)))
  }

  /** A shared fact node takes over its pruned fact; any other shared node is pruned in place. */
  ghost predicate SharedBecomes(n: Node, ref: Json, q: Request, d: Decision) {
    if n.layer == "fact" && (exists id :: id in d.factPost && Says(n.ref, "factId", id))
    then exists id :: id in d.factPost && Says(n.ref, "factId", id) && ref == d.factPost[id]
    else Cleared(n.ref, ref, q, "passageIds", d.removedPassages)
  }

  /** A reached ontology node takes over its schema, or is pruned in place when the snapshot has none. */
  ghost predicate OntologyBecomes(n: Node, ref: Json, q: Request, d: Decision) {
    if exists id :: id in d.schemaPost && StandsForSchema(n, id)
    then exists id :: id in d.schemaPost && StandsForSchema(n, id) && ref == d.schemaPost[id]
    else Cleared(n.ref, ref, q, "factIds", d.removedFacts)
  }

  predicate Reached(n: Node, q: Request) {
    n.corpusId == q.corpusId && n.layer != "ontology" && n.layer != "entity" && Names(n.ref, q.documentId)
  }

  ghost predicate CitesSome(v: Json, name: string) {
    exists id :: Cites(v, name, id)
  }

  /** What becomes of the node stored under `k`. */
  ghost predicate NodeOutcome(k: string, n: Node, after: map<string, Node>, q: Request, d: Decision) {
    if k in d.ontologyKeys then
      exists ref :: OntologyBecomes(n, ref, q, d)
        && (k in after <==> CitesSome(ref, "sourceDocumentIds")) && (k in after ==> after[k] == n.(ref := ref))
    else if Reached(n, q) then
      if NodeGoes(n, q, d) then k !in after
      else k in after && after[k] == n.(ref := after[k].ref) && SharedBecomes(n, after[k].ref, q, d)
    else (k in after || n.layer == "entity") && (k in after ==> after[k] == n)
  }

  lemma OntologyRefMeans(n: Node, q: Request, d: Decision)
    ensures OntologyBecomes(n, OntologyRef(n, q, d), q, d)
    ensures Support(n, q, d).Some? <==> CitesSome(OntologyRef(n, q, d), "sourceDocumentIds")
  {
    hide Cleared, StandsForSchema, SchemaIdOf, Cites, PruneField, Stamp, FirstString;
    ClearedInPlace(n.ref, q, "factIds", d.removedFacts);
    SomeIsCited(OntologyRef(n, q, d), "sourceDocumentIds");
    forall id ensures SchemaIdOf(n) == Some(id) <==> StandsForSchema(n, id) {
      SchemaIsStoodFor(n, id);
    }
  }

  lemma SharedRefMeans(n: Node, q: Request, d: Decision)
    ensures SharedBecomes(n, SharedRef(n, q, d), q, d)
  {
    hide Cleared, Says, GetStr, PruneField, Stamp;
    ClearedInPlace(n.ref, q, "passageIds", d.removedPassages);
    forall id ensures GetStr(n.ref, "factId") == Some(id) <==> Says(n.ref, "factId", id) {
      SaysIsRead(n.ref, "factId", id);
    }
  }

  lemma FinalFateMeans(n: Node, q: Request, d: Decision)
    ensures n.layer != "ontology" ==>
      FinalFate(n, q, d) == if !Reached(n, q) then Untouched else if NodeGoes(n, q, d) then Owned else Shared
  {
    hide Names, NamesOther, Ungrounded, LosesAll, Says, GetStr;
    UngroundedIsRead(n.ref, d.removedPassages);
    forall id ensures GetStr(n.ref, "factId") == Some(id) <==> Says(n.ref, "factId", id) {
      SaysIsRead(n.ref, "factId", id);
    }
    if n.corpusId == q.corpusId && n.layer != "ontology" && n.layer != "entity" {
      FateMeans(n, q);
      hide ScanFate;
    }
  }

  lemma NodeAfterMeans(nodes: map<string, Node>, edges: map<string, Edge>, q: Request, d: Decision, k: string)
    requires d.ontologyKeys == OntologyKeys(nodes, q, d.schemaPost) && k in nodes
    ensures NodeOutcome(k, nodes[k], GraphAfter(nodes, edges, q, d).nodes, q, d)
  {
    hide OntologyRef, SharedRef, OntologyBecomes, SharedBecomes, NodeGoes, CitesSome, EdgesKept, EdgesApart, Supported, Names,
      FinalFate, Support, MirrorsPost;
    var n, g := nodes[k], GraphAfter(nodes, edges, q, d);
    OntologyRefMeans(n, q, d);
    SharedRefMeans(n, q, d);
    FinalFateMeans(n, q, d);
    NonEntityStays(nodes, edges, q, d, k);
    OntologyLayer(n, q);
  }

  lemma OntologyLayer(n: Node, q: Request)
    ensures n.layer == "ontology" ==> ScanFate(n, q) == Untouched
    ensures n.layer == "ontology" && ScanFate(n, q) == Untouched ==>
      forall d: Decision :: FinalFate(n, q, d) == Untouched
  {
  }

  /** Beyond the node passes only entities leave. */
  lemma NonEntityStays(nodes: map<string, Node>, edges: map<string, Edge>, q: Request, d: Decision, k: string)
    requires k in nodes
    ensures var g := GraphAfter(nodes, edges, q, d);
      && (k in g.nodes ==> NodeAfter(k, nodes[k], q, d) == Some(g.nodes[k]))
      && (nodes[k].layer != "entity" ==> (k in g.nodes <==> NodeAfter(k, nodes[k], q, d).Some?))
  {
    hide NodeAfter, EdgesKept, EdgesApart, Supported, Cut;
    var g := GraphAfter(nodes, edges, q, d);
    if k in OrphanKeys(q, g.orphans) {
      var x :| x in g.orphans && StoreKey(q.corpusId, x) == k;
      assert IsEntity(g.pruned, q, x);
      NodeAfterKeepsIds(k, nodes[k], q, d);
    }
  }

  /** Every node becomes what its layer and the decisions say. */
  lemma NodesMean(s: Store, q: Request, orders: Orders, k: string)
    requires k in s.nodes
    ensures NodeOutcome(k, s.nodes[k], Delete(s, q, orders).nodes, q, Decide(s, q))
    ensures forall x :: x in Delete(s, q, orders).nodes ==> x in s.nodes
  {
    hide Decide, Delete, GraphAfter, NodeOutcome;
    DecideKeys(s, q);
    DeleteGraph(s, q, orders);
    NodeAfterMeans(s.nodes, s.edges, q, Decide(s, q), k);
    forall x | x in Delete(s, q, orders).nodes ensures x in s.nodes {
      NodesAreOld(s.nodes, s.edges, q, Decide(s, q), x);
    }
  }

  // ---------- edges and entities ----------

  /** A node that is no entity and has this id left with the delete. */
  ghost predicate NameGone(s: Store, t: Store, x: string) {
    exists k :: k in s.nodes && k !in t.nodes && s.nodes[k].layer != "entity" && s.nodes[k].nodeId == x
  }

  /** A co-occurrence edge drawn for a removed fact: its id spells both entities and the fact. */
  ghost predicate DrawnFor(e: Edge, removedFacts: set<string>) {
    exists head, tail, f :: f in removedFacts && IsDrawnFor(e, head, tail, f)
  }

  predicate IsDrawnFor(e: Edge, head: string, tail: string, f: string) {
    e.relation == "entity_cooccurrence" && e.sourceNodeId == "entity:" + head && e.targetNodeId == "entity:" + tail
    && e.edgeId == "entity-cooccur:" + head + ":" + tail + ":" + f
  }

  /** An edge of the corpus that goes with a removed node or fact. */
  ghost predicate Severed(s: Store, t: Store, q: Request, d: Decision, e: Edge) {
    e.corpusId == q.corpusId && (NameGone(s, t, e.sourceNodeId) || NameGone(s, t, e.targetNodeId) || DrawnFor(e, d.removedFacts))
  }

  predicate Mentions(e: Edge, q: Request, x: string) {
    e.corpusId == q.corpusId && (e.relation == "entity_mention" || e.relation == "entity_cooccurrence")
    && (e.sourceNodeId == x || e.targetNodeId == x)
  }

  predicate IsEntityNode(s: Store, q: Request, x: string) {
    var k := q.corpusId + ":" + x;
    "entity:" <= x && k in s.nodes && s.nodes[k].layer == "entity"
  }

  /** An entity with a severed edge and without a mention that is not severed. */
  ghost predicate Abandoned(s: Store, t: Store, q: Request, d: Decision, x: string) {
    && IsEntityNode(s, q, x) && !NameGone(s, t, x)
    && (exists k ::
          k in s.edges && Severed(s, t, q, d, s.edges[k]) && (s.edges[k].sourceNodeId == x || s.edges[k].targetNodeId == x))
    && !(exists k :: k in s.edges && Mentions(s.edges[k], q, x) && !Severed(s, t, q, d, s.edges[k]))
  }

  lemma StripIs(s: string, prefix: string, rest: string)
    ensures Strip(s, prefix) == Some(rest) <==> s == prefix + rest
  {
    if prefix <= s {
      assert s == prefix + s[|prefix|..];
    }
    assert s == prefix + rest ==> s[|prefix|..] == rest;
  }

  lemma DrawnForMeans(e: Edge, f: string)
    ensures CooccurrenceFact(e) == Some(f) <==> exists head, tail :: IsDrawnFor(e, head, tail, f)
  {
    var head, tail := Strip(e.sourceNodeId, "entity:"), Strip(e.targetNodeId, "entity:");
    forall x ensures head == Some(x) <==> e.sourceNodeId == "entity:" + x {
      StripIs(e.sourceNodeId, "entity:", x);
    }
    forall x ensures tail == Some(x) <==> e.targetNodeId == "entity:" + x {
      StripIs(e.targetNodeId, "entity:", x);
    }
    hide Strip;
    if head.Some? && tail.Some? {
      ChainIs(e.edgeId, head.value, tail.value, f);
      assert IsDrawnFor(e, head.value, tail.value, f) <==>
        e.relation == "entity_cooccurrence" && e.edgeId == "entity-cooccur:" + head.value + ":" + tail.value + ":" + f;
    }
  }

  lemma ChainIs(id: string, head: string, tail: string, f: string)
    ensures StripFrom(StripFrom(StripFrom(StripFrom(Strip(id, "entity-cooccur:"), head), ":"), tail), ":") == Some(f)
      <==> id == "entity-cooccur:" + head + ":" + tail + ":" + f
  {
    hide Strip;
    var a := Strip(id, "entity-cooccur:");
    forall r ensures a == Some(r) <==> id == "entity-cooccur:" + r {
      StripIs(id, "entity-cooccur:", r);
    }
    var r3 := ":" + f;
    var r2 := tail + r3;
    var r1 := ":" + r2;
    var r0 := head + r1;
    assert "entity-cooccur:" + r0 == "entity-cooccur:" + head + ":" + tail + ":" + f;
    StripFromIs(a, head, r1);
    StripFromIs(StripFrom(a, head), ":", r2);
    StripFromIs(StripFrom(StripFrom(a, head), ":"), tail, r3);
    StripFromIs(StripFrom(StripFrom(StripFrom(a, head), ":"), tail), ":", f);
  }

  lemma StripFromIs(s: Option<string>, prefix: string, rest: string)
    ensures StripFrom(s, prefix) == Some(rest) <==> s == Some(prefix + rest)
  {
    if s.Some? {
      StripIs(s.value, prefix, rest);
    }
  }

  lemma NameGoneMeans(s: Store, q: Request, orders: Orders, x: string)
    ensures x in RemovedIds(s.nodes, q, Decide(s, q)) <==> NameGone(s, Delete(s, q, orders), x)
  {
    hide Decide, Delete, GraphAfter, NodeAfter;
    var d, t := Decide(s, q), Delete(s, q, orders);
    DecideKeys(s, q);
    DeleteGraph(s, q, orders);
    forall k | k in s.nodes
      ensures k in t.nodes ==> NodeAfter(k, s.nodes[k], q, d).Some?
      ensures s.nodes[k].layer != "entity" ==> (k in t.nodes <==> NodeAfter(k, s.nodes[k], q, d).Some?)
      ensures s.nodes[k].layer == "entity" ==> NodeAfter(k, s.nodes[k], q, d).Some?
    {
      NonEntityStays(s.nodes, s.edges, q, d, k);
      if s.nodes[k].layer == "entity" {
        EntityStays(k, s.nodes[k], q, d, s.nodes);
      }
    }
  }

  lemma SeveredMeans(s: Store, q: Request, orders: Orders, e: Edge)
    ensures var d := Decide(s, q);
      Cut(e, q, RemovedIds(s.nodes, q, d), d.removedFacts) <==> Severed(s, Delete(s, q, orders), q, d, e)
  {
    hide Decide, Delete, RemovedIds, NameGone, CooccurrenceFact, DrawnFor;
    NameGoneMeans(s, q, orders, e.sourceNodeId);
    NameGoneMeans(s, q, orders, e.targetNodeId);
    DrawnForSome(e, Decide(s, q).removedFacts);
  }

  lemma DrawnForSome(e: Edge, facts: set<string>)
    ensures CooccurrenceFact(e).Some? && CooccurrenceFact(e).value in facts <==> DrawnFor(e, facts)
  {
    hide CooccurrenceFact, IsDrawnFor;
    if DrawnFor(e, facts) {
      var head, tail, f :| f in facts && IsDrawnFor(e, head, tail, f);
      DrawnForMeans(e, f);
    }
    if CooccurrenceFact(e).Some? && CooccurrenceFact(e).value in facts {
      DrawnForMeans(e, CooccurrenceFact(e).value);
      var head, tail :| IsDrawnFor(e, head, tail, CooccurrenceFact(e).value);
    }
  }

  lemma AbandonedMeans(s: Store, q: Request, orders: Orders, x: string)
    ensures Orphaned(s.nodes, s.edges, q, Decide(s, q), x) <==> Abandoned(s, Delete(s, q, orders), q, Decide(s, q), x)
  {
    hide Decide, Delete, RemovedIds, NameGone, Cut, Severed;
    NameGoneMeans(s, q, orders, x);
    forall k | k in s.edges
      ensures Cut(s.edges[k], q, RemovedIds(s.nodes, q, Decide(s, q)), Decide(s, q).removedFacts)
        <==> Severed(s, Delete(s, q, orders), q, Decide(s, q), s.edges[k])
      ensures x in Ends(s.edges[k]) <==> s.edges[k].sourceNodeId == x || s.edges[k].targetNodeId == x
      ensures x in Ends(s.edges[k]) && Supports(s.edges[k], q) <==> Mentions(s.edges[k], q, x)
    {
      SeveredMeans(s, q, orders, s.edges[k]);
    }
    hide Ends, Supports, Mentions;
  }

  /** An entity of the corpus leaves exactly when it is abandoned, and no other entity does. */
  lemma EntitiesMean(s: Store, q: Request, orders: Orders, k: string)
    requires k in s.nodes && s.nodes[k].layer == "entity"
    ensures var t := Delete(s, q, orders);
      k !in t.nodes <==> exists x :: k == q.corpusId + ":" + x && Abandoned(s, t, q, Decide(s, q), x)
  {
    hide Decide, Delete, GraphAfter, Abandoned, Orphaned;
    var d, t := Decide(s, q), Delete(s, q, orders);
    DecideKeys(s, q);
    DeleteGraph(s, q, orders);
    EntityLeaves(s.nodes, s.edges, q, d, k);
    forall x
      ensures Orphaned(s.nodes, s.edges, q, d, x) <==> Abandoned(s, t, q, d, x)
      ensures x in GraphAfter(s.nodes, s.edges, q, d).orphans <==> Orphaned(s.nodes, s.edges, q, d, x)
    {
      AbandonedMeans(s, q, orders, x);
      OrphansAre(s.nodes, s.edges, q, d, x);
    }
  }

  lemma EntityLeaves(nodes: map<string, Node>, edges: map<string, Edge>, q: Request, d: Decision, k: string)
    requires d.ontologyKeys == OntologyKeys(nodes, q, d.schemaPost) && k in nodes && nodes[k].layer == "entity"
    ensures var g := GraphAfter(nodes, edges, q, d);
      k !in g.nodes <==> exists x :: k == q.corpusId + ":" + x && x in g.orphans
  {
    hide NodeAfter, EdgesKept, EdgesApart, Supported, Candidates, OntologyKeys;
    EntityStays(k, nodes[k], q, d, nodes);
  }

  /** An edge goes exactly when it is severed or ends at an abandoned entity; any other is unchanged. */
  lemma EdgesMean(s: Store, q: Request, orders: Orders, k: string)
    ensures var t, d := Delete(s, q, orders), Decide(s, q);
      && (k in t.edges <==>
            k in s.edges && !Severed(s, t, q, d, s.edges[k])
            && !(s.edges[k].corpusId == q.corpusId
                 && (Abandoned(s, t, q, d, s.edges[k].sourceNodeId) || Abandoned(s, t, q, d, s.edges[k].targetNodeId))))
      && (k in t.edges ==> t.edges[k] == s.edges[k])
  {
    hide Decide, Delete, GraphAfter, Abandoned, Severed, Orphaned;
    var d, t := Decide(s, q), Delete(s, q, orders);
    DecideKeys(s, q);
    DeleteGraph(s, q, orders);
    EdgeLeaves(s.nodes, s.edges, q, d, k);
    if k in s.edges {
      var e := s.edges[k];
      SeveredMeans(s, q, orders, e);
      AbandonedMeans(s, q, orders, e.sourceNodeId);
      AbandonedMeans(s, q, orders, e.targetNodeId);
      OrphansAre(s.nodes, s.edges, q, d, e.sourceNodeId);
      OrphansAre(s.nodes, s.edges, q, d, e.targetNodeId);
    }
  }

  lemma EdgeLeaves(nodes: map<string, Node>, edges: map<string, Edge>, q: Request, d: Decision, k: string)
    ensures var g := GraphAfter(nodes, edges, q, d);
      && (k in g.edges <==>
            k in edges && !Cut(edges[k], q, RemovedIds(nodes, q, d), d.removedFacts)
            && !(edges[k].corpusId == q.corpusId && (edges[k].sourceNodeId in g.orphans || edges[k].targetNodeId in g.orphans)))
      && (k in g.edges ==> g.edges[k] == edges[k])
  {
    hide CooccurrenceFact, Candidates, Supported, NodesAfter, RemovedIds;
  }

  // ---------- the snapshot and the lexical passages ----------

  /** The three sections are rewritten member by member; every other field and every other corpus's snapshot stays. */
  lemma SnapshotsMean(s: Store, q: Request, orders: Orders)
    ensures var t, d := Delete(s, q, orders), Decide(s, q);
      var passages, facts := SnapshotItems(s, q.corpusId, "passages"), SnapshotItems(s, q.corpusId, "facts");
      && PassagesFollow(passages, SnapshotItems(t, q.corpusId, "passages"), q)
      && FactsFollow(facts, SnapshotItems(t, q.corpusId, "facts"), q, d.removedPassages)
      && SchemasFollow(SnapshotItems(s, q.corpusId, "schemas"), SnapshotItems(t, q.corpusId, "schemas"),
           q, d.removedFacts, d.touched)
      && t.snapshots.Keys == s.snapshots.Keys
      && (forall c :: c in s.snapshots ==> RestStays(s.snapshots[c], t.snapshots[c], c == q.corpusId))
  {
    hide Decide, GraphAfter, Rekey, VectorsAfter, DroppedVectors, PassagesAfter, SnapshotItems, FactsAfter, SchemasAfter,
      PassagesKept, FactsFollow, SchemasFollow, PassagesFollow, WithItems, RestStays;
    var t, d := Delete(s, q, orders), Decide(s, q);
    var passages, facts := SnapshotItems(s, q.corpusId, "passages"), SnapshotItems(s, q.corpusId, "facts");
    var schemas := SnapshotItems(s, q.corpusId, "schemas");
    SectionsAfter(s, q, orders);
    PassagesKeptFollow(passages, q);
    FactsMean(facts, q, d.removedPassages, |facts|);
    assert facts[..|facts|] == facts;
    SchemasMean(schemas, q, d.removedFacts, d.touched);
    forall c | c in s.snapshots ensures RestStays(s.snapshots[c], t.snapshots[c], c == q.corpusId) {
      if c == q.corpusId {
        SectionsReplaced(s.snapshots[c], PassagesKept(passages, q), FactsAfter(facts, q, d.removedPassages, |facts|),
          SchemasAfter(schemas, q, d.removedFacts, d.touched));
      } else {
        SameStays(s.snapshots[c]);
      }
    }
  }

  /** Passages of the document go, all others follow in their order. */
  predicate PassagesFollow(before: seq<Json>, after: seq<Json>, q: Request) {
    if before == [] then after == []
    else if FromDocument(before[0], q.documentId) then PassagesFollow(before[1..], after, q)
    else after != [] && after[0] == before[0] && PassagesFollow(before[1..], after[1..], q)
  }

  lemma {:induction false} PassagesKeptFollow(passages: seq<Json>, q: Request)
    ensures PassagesFollow(passages, PassagesKept(passages, q), q)
  {
    hide OwnedPassage, FromDocument;
    if passages != [] {
      OwnedIsFrom(passages[0], q);
      PassagesKeptFollow(passages[1..], q);
      var rest := PassagesKept(passages[1..], q);
      if OwnedPassage(passages[0], q) {
        assert PassagesKept(passages, q) == rest;
      } else {
        assert PassagesKept(passages, q) == [passages[0]] + rest;
        assert ([passages[0]] + rest)[1..] == rest;
      }
    }
  }

  /** A snapshot keeps its fields, and their values but for the arrays of a rewritten one. */
  predicate RestStays(before: Json, after: Json, rewritten: bool) {
    if !before.Obj? then after == before
    else
      && after.Obj? && after.fields.Keys == before.fields.Keys
      && forall f :: f in before.fields ==>
           after.fields[f] == before.fields[f]
           || (rewritten && (f == "passages" || f == "facts" || f == "schemas") && before.fields[f].Arr? && after.fields[f].Arr?)
  }

  lemma SectionsReplaced(v: Json, passages: seq<Json>, facts: seq<Json>, schemas: seq<Json>)
    ensures RestStays(v, WithItems(WithItems(WithItems(v, "passages", passages), "facts", facts), "schemas", schemas), true)
  {
  }

  lemma SameStays(v: Json)
    ensures RestStays(v, v, false)
  {
  }

  /** A lexical passage goes exactly when it is the document's; any other is unchanged. */
  lemma LexicalMeans(s: Store, q: Request, orders: Orders, k: string)
    ensures var t := Delete(s, q, orders);
      && (k in t.passages <==>
            k in s.passages && !(s.passages[k].corpusId == q.corpusId && s.passages[k].documentId == q.documentId))
      && (k in t.passages ==> t.passages[k] == s.passages[k])
  {
    hide Decide, GraphAfter, Rekey, VectorsAfter, DroppedVectors, SnapshotsAfter;
  }
}
