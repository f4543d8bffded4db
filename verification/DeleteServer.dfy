/**
  `apply_memory_delete_document` on the server's own maps: the passes in source
  order, each a walk over one hash map in an arbitrary order, and the proof that
  together they compute `Delete` and its report.
 */
module DeleteServer {
  import opened Wrappers
  import opened Text
  import opened StableSort
  import opened Json
  import opened MapPasses
  import opened DeleteSpec

  // ---------- step 1: the scan ----------

  /** What the node scan has gathered. */
  datatype NodeScan = NodeScan(fates: map<string, Fate>, named: set<string>, needed: set<string>, passages: set<string>)

  ghost predicate FatesOf(fates: map<string, Fate>, nodes: map<string, Node>, done: set<string>, f: Node -> Fate) {
    && (forall k :: k in fates <==> k in done && k in nodes && f(nodes[k]) != Untouched)
    && (forall k :: k in fates ==> fates[k] == f(nodes[k]))
  }

  function NamedKey(q: Request): (string, Node) -> set<string> {
    (k, node: Node) => if NamesDocument(node, q) then {k} else {}
  }

  function NamedSchema(q: Request): (string, Node) -> set<string> {
    (k, node: Node) => if NamesDocument(node, q) then IdSet(SchemaIdOf(node)) else {}
  }

  function NodePassage(q: Request): (string, Node) -> set<string> {
    (k, node: Node) => if RemovedPassageNode(node, q) then {IdOr(node.ref, "passageId", node.nodeId, "passage:")} else {}
  }

  function ScanFateOf(q: Request): Node -> Fate {
    (node: Node) => ScanFate(node, q)
  }

  ghost predicate Scanned(scan: NodeScan, nodes: map<string, Node>, q: Request, done: set<string>) {
    && FatesOf(scan.fates, nodes, done, ScanFateOf(q))
    && Collected(scan.named, nodes, done, NamedKey(q))
    && Collected(scan.needed, nodes, done, NamedSchema(q))
    && Collected(scan.passages, nodes, done, NodePassage(q))
  }

  lemma ScanStep(scan: NodeScan, nodes: map<string, Node>, q: Request, done: set<string>, k: string)
    requires Scanned(scan, nodes, q, done) && k in nodes
    ensures var node := nodes[k];
      Scanned(NodeScan(
          if ScanFate(node, q) != Untouched then scan.fates[k := ScanFate(node, q)] else scan.fates,
          scan.named + NamedKey(q)(k, node), scan.needed + NamedSchema(q)(k, node), scan.passages + NodePassage(q)(k, node)),
        nodes, q, done + {k})
  {
    hide Collected, NamedKey, NamedSchema, NodePassage, ScanFate;
    CollectedStep(scan.named, nodes, done, NamedKey(q), k);
    CollectedStep(scan.needed, nodes, done, NamedSchema(q), k);
    CollectedStep(scan.passages, nodes, done, NodePassage(q), k);
  }

  /** The read-only walk over the nodes. */
  method ScanNodes(nodes: map<string, Node>, q: Request, order: seq<string>) returns (scan: NodeScan)
    requires Listing(order, nodes.Keys)
    ensures Scanned(scan, nodes, q, nodes.Keys)
  {
    hide Scanned, Listing;
    scan := NodeScan(map[], {}, {}, {});
    NothingScanned(nodes, q);
    DoneAll(order, nodes.Keys);
    for i := 0 to |order|
      invariant Scanned(scan, nodes, q, Done(order, i))
    {
      DoneStep(order, nodes.Keys, i);
      ScanStep(scan, nodes, q, Done(order, i), order[i]);
      var k, node := order[i], nodes[order[i]];
      var fate := ScanFate(node, q);
      var fates := if fate != Untouched then scan.fates[k := fate] else scan.fates;
      scan := NodeScan(fates, scan.named + NamedKey(q)(k, node), scan.needed + NamedSchema(q)(k, node),
        scan.passages + NodePassage(q)(k, node));
    }
  }

  lemma NothingScanned(nodes: map<string, Node>, q: Request)
    ensures Scanned(NodeScan(map[], {}, {}, {}), nodes, q, {})
  {
  }

  /** The snapshot's passage ids join those of the graph. */
  method ScanPassages(passages: seq<Json>, q: Request, found: set<string>) returns (all: set<string>)
    ensures all == found + OwnedPassageIds(passages, q, |passages|)
  {
    all := found;
    for i := 0 to |passages|
      invariant all == found + OwnedPassageIds(passages, q, i)
    {
      if OwnedPassage(passages[i], q) {
        all := all + IdSet(GetStr(passages[i], "passageId"));
      }
    }
  }

  function FactOfNode(q: Request, removedPassages: set<string>): (string, Node) -> set<string> {
    (k, node: Node) =>
      if node.layer == "fact" && GroundedFate(node, q, removedPassages) == Owned
      then {IdOr(node.ref, "factId", node.nodeId, "fact:")} else {}
  }

  function GroundedFateOf(q: Request, removedPassages: set<string>): Node -> Fate {
    (node: Node) => GroundedFate(node, q, removedPassages)
  }

  /** Where the upgrade walk stands: visited fates are grounded, the others are as scanned. */
  ghost predicate Upgraded(fates: map<string, Fate>, facts: set<string>, nodes: map<string, Node>, q: Request,
                           removedPassages: set<string>, done: set<string>) {
    && (forall k :: k in fates <==> k in nodes && ScanFate(nodes[k], q) != Untouched)
    && (forall k :: k in fates ==>
          fates[k] == if k in done then GroundedFate(nodes[k], q, removedPassages) else ScanFate(nodes[k], q))
    && Collected(facts, nodes, done, FactOfNode(q, removedPassages))
  }

  lemma UpgradeStep(fates: map<string, Fate>, facts: set<string>, nodes: map<string, Node>, q: Request,
                    removedPassages: set<string>, done: set<string>, k: string)
    requires Upgraded(fates, facts, nodes, q, removedPassages, done) && k in fates && k !in done
    ensures k in nodes && fates[k] == ScanFate(nodes[k], q)
    ensures Upgraded(fates[k := GroundedFate(nodes[k], q, removedPassages)], facts + FactOfNode(q, removedPassages)(k, nodes[k]),
                     nodes, q, removedPassages, done + {k})
  {
    hide Collected, FactOfNode, ScanFate, GroundedFate;
    CollectedStep(facts, nodes, done, FactOfNode(q, removedPassages), k);
  }

  /** A shared fact that would lose all its passages is treated as owned; an owned fact is remembered. */
  method GroundOne(fate: Fate, key: string, node: Node, q: Request, removedPassages: set<string>)
    returns (grounded: Fate, facts: set<string>)
    requires fate == ScanFate(node, q)
    ensures grounded == GroundedFate(node, q, removedPassages)
    ensures facts == FactOfNode(q, removedPassages)(key, node)
  {
    grounded, facts := fate, {};
    if node.layer == "fact" {
      if fate == Shared && LosesAll(node.ref, removedPassages) {
        grounded := Owned;
      }
      if grounded == Owned {
        facts := {IdOr(node.ref, "factId", node.nodeId, "fact:")};
      }
    }
  }

  method UpgradeFates(scanned: map<string, Fate>, nodes: map<string, Node>, q: Request, removedPassages: set<string>,
                      order: seq<string>)
    returns (fates: map<string, Fate>, facts: set<string>)
    requires FatesOf(scanned, nodes, nodes.Keys, ScanFateOf(q)) && Listing(order, scanned.Keys)
    ensures Upgraded(fates, facts, nodes, q, removedPassages, scanned.Keys) && fates.Keys == scanned.Keys
  {
    hide Upgraded, Listing, FatesOf;
    fates, facts := scanned, {};
    StartsUpgraded(scanned, nodes, q, removedPassages);
    DoneAll(order, scanned.Keys);
    for i := 0 to |order|
      invariant fates.Keys == scanned.Keys
      invariant Upgraded(fates, facts, nodes, q, removedPassages, Done(order, i))
    {
      DoneStep(order, scanned.Keys, i);
      UpgradeStep(fates, facts, nodes, q, removedPassages, Done(order, i), order[i]);
      var k := order[i];
      var grounded, more := GroundOne(fates[k], k, nodes[k], q, removedPassages);
      fates, facts := fates[k := grounded], facts + more;
    }
  }

  lemma StartsUpgraded(scanned: map<string, Fate>, nodes: map<string, Node>, q: Request, removedPassages: set<string>)
    requires FatesOf(scanned, nodes, nodes.Keys, ScanFateOf(q))
    ensures Upgraded(scanned, {}, nodes, q, removedPassages, {})
  {
    hide ScanFate;
  }

  function VectorSchema(q: Request): (string, Vector) -> set<string> {
    (k, v: Vector) => if NamesSchema(v, q) then {StripPrefix(v.id, "schema:")} else {}
  }

  method ScanVectors(vectors: map<string, Vector>, q: Request, found: set<string>, order: seq<string>) returns (needed: set<string>)
    requires Listing(order, vectors.Keys)
    ensures needed == found + set k | k in vectors && NamesSchema(vectors[k], q) :: StripPrefix(vectors[k].id, "schema:")
  {
    hide Collected, Listing, NamesSchema;
    var more: set<string> := {};
    NothingCollected(vectors, VectorSchema(q));
    DoneAll(order, vectors.Keys);
    for i := 0 to |order|
      invariant Collected(more, vectors, Done(order, i), VectorSchema(q))
    {
      DoneStep(order, vectors.Keys, i);
      CollectedStep(more, vectors, Done(order, i), VectorSchema(q), order[i]);
      more := more + VectorSchema(q)(order[i], vectors[order[i]]);
    }
    VectorSchemasAre(more, vectors, q);
    needed := found + more;
  }

  lemma NothingCollected<V>(was: map<string, V>, g: (string, V) -> set<string>)
    ensures Collected({}, was, {}, g)
  {
  }

  lemma VectorSchemasAre(found: set<string>, vectors: map<string, Vector>, q: Request)
    requires Collected(found, vectors, vectors.Keys, VectorSchema(q))
    ensures found == set k | k in vectors && NamesSchema(vectors[k], q) :: StripPrefix(vectors[k].id, "schema:")
  {
    hide NamesSchema;
  }

  /** What the whole scan decides, before the snapshot is rewritten. */
  datatype Scan = Scan(fates: map<string, Fate>, named: set<string>, needed: set<string>, passages: set<string>, facts: set<string>)

  ghost predicate ScanIs(scan: Scan, s: Store, q: Request) {
    && FatesOf(scan.fates, s.nodes, s.nodes.Keys, GroundedFateOf(q, scan.passages))
    && scan.fates.Keys == FatedKeys(s.nodes, q)
    && scan.named == (set k | k in s.nodes && NamesDocument(s.nodes[k], q))
    && scan.needed == Needed(s, q)
    && scan.passages == RemovedPassages(s, q)
    && scan.facts == NodeFacts(s.nodes, q, scan.passages)
  }

  method ScanStore(s: Store, q: Request, orders: Orders) returns (scan: Scan)
    requires IsOrders(orders)
    ensures ScanIs(scan, s, q)
  {
    hide Scanned, Upgraded, ScanIs, OwnedPassageIds, SnapshotItems, NamesSchema, FatesOf;
    OrdersList(orders, 2, s.nodes.Keys);
    var nodes := ScanNodes(s.nodes, q, orders(2, s.nodes.Keys));
    var passages := ScanPassages(SnapshotItems(s, q.corpusId, "passages"), q, nodes.passages);
    ScannedFates(nodes, s.nodes, q);
    OrdersList(orders, 3, nodes.fates.Keys);
    var fates, facts := UpgradeFates(nodes.fates, s.nodes, q, passages, orders(3, nodes.fates.Keys));
    OrdersList(orders, 4, s.vectors.Keys);
    var needed := ScanVectors(s.vectors, q, nodes.needed, orders(4, s.vectors.Keys));
    scan := Scan(fates, nodes.named, needed, passages, facts);
    ScanComplete(nodes, scan, s, q);
  }

  lemma OrdersList(orders: Orders, n: nat, keys: set<string>)
    requires IsOrders(orders)
    ensures Listing(orders(n, keys), keys)
  {
  }

  lemma ScannedFates(scan: NodeScan, nodes: map<string, Node>, q: Request)
    requires Scanned(scan, nodes, q, nodes.Keys)
    ensures FatesOf(scan.fates, nodes, nodes.Keys, ScanFateOf(q))
    ensures scan.fates.Keys == FatedKeys(nodes, q)
    ensures scan.named == (set k | k in nodes && NamesDocument(nodes[k], q))
    ensures scan.needed == (set k | k in nodes && NamesDocument(nodes[k], q)
      && SchemaIdOf(nodes[k]).Some? :: SchemaIdOf(nodes[k]).value)
    ensures scan.passages == (set k | k in nodes && RemovedPassageNode(nodes[k], q) ::
                                IdOr(nodes[k].ref, "passageId", nodes[k].nodeId, "passage:"))
  {
    hide ScanFate, NamesDocument, SchemaIdOf, RemovedPassageNode, IdOr;
  }

  lemma UpgradedIs(fates: map<string, Fate>, facts: set<string>, nodes: map<string, Node>, q: Request, removedPassages: set<string>)
    requires fates.Keys == FatedKeys(nodes, q) && Upgraded(fates, facts, nodes, q, removedPassages, fates.Keys)
    ensures FatesOf(fates, nodes, nodes.Keys, GroundedFateOf(q, removedPassages))
    ensures facts == NodeFacts(nodes, q, removedPassages)
  {
    hide ScanFate, IdOr, LosesAll;
  }

  lemma ScanComplete(nodes: NodeScan, scan: Scan, s: Store, q: Request)
    requires Scanned(nodes, s.nodes, q, s.nodes.Keys) && scan.named == nodes.named
    requires var items := SnapshotItems(s, q.corpusId, "passages");
      scan.passages == nodes.passages + OwnedPassageIds(items, q, |items|)
    requires scan.fates.Keys == nodes.fates.Keys
    requires Upgraded(scan.fates, scan.facts, s.nodes, q, scan.passages, scan.fates.Keys)
    requires scan.needed == nodes.needed + set k | k in s.vectors
      && NamesSchema(s.vectors[k], q) :: StripPrefix(s.vectors[k].id, "schema:")
    ensures ScanIs(scan, s, q)
  {
    hide Scanned, Upgraded, FatesOf, OwnedPassageIds, SnapshotItems, NamesSchema, NamesDocument, RemovedPassageNode,
      IdOr, SchemaIdOf,
      ScanFate, NodeFacts, FatedKeys;
    ScannedFates(nodes, s.nodes, q);
    UpgradedIs(scan.fates, scan.facts, s.nodes, q, scan.passages);
  }

  // ---------- step 2: the snapshot ----------

  method KeepPassages(passages: seq<Json>, q: Request) returns (kept: seq<Json>)
    ensures kept == PassagesKept(passages, q)
  {
    kept := [];
    for i := 0 to |passages|
      invariant kept == PassagesKept(passages[..i], q)
    {
      FilterConcat((p: Json) => !OwnedPassage(p, q), passages[..i], [passages[i]]);
      assert passages[..i + 1] == passages[..i] + [passages[i]];
      if !OwnedPassage(passages[i], q) {
        kept := kept + [passages[i]];
      }
    }
    assert passages[..|passages|] == passages;
  }

  datatype FactPass = FactPass(kept: seq<Json>, touched: set<string>, dropped: set<string>, post: map<string, Json>, shared: nat)

  ghost predicate FactsRewritten(pass: FactPass, facts: seq<Json>, q: Request, removedPassages: set<string>, k: nat) {
    && k <= |facts|
    && pass.kept == FactsAfter(facts, q, removedPassages, k)
    && pass.touched == TouchedSchemas(facts, q, k)
    && pass.dropped == DroppedFacts(facts, q, removedPassages, k)
    && pass.post == FactPost(facts, q, removedPassages, k)
    && pass.shared == SharedFacts(facts, q, removedPassages, k)
  }

  /** The `retain_mut` closure on one fact. */
  method RewriteFact(pass: FactPass, facts: seq<Json>, k: nat, q: Request, removedPassages: set<string>) returns (next: FactPass)
    requires k < |facts| && FactsRewritten(pass, facts, q, removedPassages, k)
    ensures FactsRewritten(next, facts, q, removedPassages, k + 1)
  {
    hide Lists, PruneField, Stamp, FirstString, LosesAll;
    var fact := facts[k];
    if !Lists(fact, "sourceDocumentIds", q.documentId) {
      return pass.(kept := pass.kept + [fact]);
    }
    var pruned := PruneField(fact, "sourceDocumentIds", {q.documentId});
    SchemaIdSurvives(fact, q);
    var touched := pass.touched + IdSet(GetStr(pruned, "schemaId"));
    if FirstString(pruned, "sourceDocumentIds").Some? && !LosesAll(pruned, removedPassages) {
      var after := Stamp(PruneField(pruned, "passageIds", removedPassages), q.updatedAt);
      var id := GetStr(after, "factId");
      var post := if id.Some? then pass.post[id.value := after] else pass.post;
      return FactPass(pass.kept + [after], touched, pass.dropped, post, pass.shared + 1);
    }
    return FactPass(pass.kept, touched, pass.dropped + IdSet(GetStr(pruned, "factId")), pass.post, pass.shared);
  }

  lemma SchemaIdSurvives(fact: Json, q: Request)
    ensures var pruned := PruneField(fact, "sourceDocumentIds", {q.documentId});
      GetStr(pruned, "schemaId") == GetStr(fact, "schemaId") && GetStr(pruned, "factId") == GetStr(fact, "factId")
  {
  }

  method RewriteFacts(facts: seq<Json>, q: Request, removedPassages: set<string>) returns (pass: FactPass)
    ensures FactsRewritten(pass, facts, q, removedPassages, |facts|)
  {
    pass := FactPass([], {}, {}, map[], 0);
    for k := 0 to |facts|
      invariant FactsRewritten(pass, facts, q, removedPassages, k)
    {
      pass := RewriteFact(pass, facts, k, q, removedPassages);
    }
  }

  datatype SchemaPass = SchemaPass(kept: seq<Json>, post: map<string, Json>, affected: nat, adjusted: nat)

  ghost predicate SchemasRewritten(pass: SchemaPass, schemas: seq<Json>, q: Request, d: Decision, k: nat) {
    && k <= |schemas|
    && pass.kept == SchemasAfter(schemas[..k], q, d.removedFacts, d.touched)
    && pass.post == SchemaPost(schemas, q, d.removedFacts, d.touched, d.needed, k)
    && pass.affected == AffectedSchemas(schemas, q, d, k)
    && pass.adjusted == AdjustedSchemas(schemas, q, d, k)
  }

  method RewriteSchema(pass: SchemaPass, schemas: seq<Json>, k: nat, q: Request, d: Decision) returns (next: SchemaPass)
    requires k < |schemas| && SchemasRewritten(pass, schemas, q, d, k)
    ensures SchemasRewritten(next, schemas, q, d, k + 1)
  {
    hide Lists, ListsAny, PruneSchema, SafeCount;
    assert schemas[..k + 1] == schemas[..k] + [schemas[k]];
    assert SchemasAfter(schemas[..k + 1], q, d.removedFacts, d.touched)
        == SchemasAfter(schemas[..k], q, d.removedFacts, d.touched) + [SchemaAfter(schemas[k], q, d.removedFacts, d.touched)];
    var schema, id := schemas[k], GetStr(schemas[k], "schemaId");
    if id.None? {
      return pass.(kept := pass.kept + [schema]);
    }
    var affected := Lists(schema, "sourceDocumentIds", q.documentId) || ListsRemoved(schema, d.removedFacts)
      || id.value in d.touched;
    var after := if affected then PruneSchema(schema, q.documentId, d.removedFacts, q.updatedAt) else schema;
    var post := if affected || id.value in d.needed then pass.post[id.value := after] else pass.post;
    var adjusted := affected && SafeCount(Get(schema, "frequency")).Some?;
    return SchemaPass(pass.kept + [after], post, pass.affected + (if affected then 1 else 0),
      pass.adjusted + (if adjusted then 1 else 0));
  }

  /** Whether an array of the schema's fact ids holds a removed one. */
  function ListsRemoved(schema: Json, removedFacts: set<string>): (r: bool)
    ensures r == ListsAny(schema, "factIds", removedFacts)
  {
    var ids := GetArray(schema, "factIds");
    ids.Some? && exists i :: 0 <= i < |ids.value| && ids.value[i].Str? && ids.value[i].s in removedFacts
  }

  method RewriteSchemas(schemas: seq<Json>, q: Request, d: Decision) returns (pass: SchemaPass)
    ensures SchemasRewritten(pass, schemas, q, d, |schemas|)
    ensures pass.kept == SchemasAfter(schemas, q, d.removedFacts, d.touched)
  {
    pass := SchemaPass([], map[], 0, 0);
    for k := 0 to |schemas|
      invariant SchemasRewritten(pass, schemas, q, d, k)
    {
      pass := RewriteSchema(pass, schemas, k, q, d);
    }
    assert schemas[..|schemas|] == schemas;
  }

  function MirrorKey(q: Request, nodes: map<string, Node>): string -> set<string> {
    (id: string) =>
      var key := StoreKey(q.corpusId, "schema:" + id);
      if key in nodes && nodes[key].layer == "ontology" then {key} else {}
  }

  /** The ontology nodes that mirror a rewritten schema join the listed ones. */
  method ListMirrors(nodes: map<string, Node>, q: Request, schemaPost: map<string, Json>, named: set<string>, order: seq<string>)
    returns (keys: set<string>)
    requires Listing(order, schemaPost.Keys) && named == set k | k in nodes && NamesDocument(nodes[k], q)
    ensures keys == OntologyKeys(nodes, q, schemaPost)
  {
    hide NamesDocument, Listing;
    keys := named;
    DoneAll(order, schemaPost.Keys);
    for i := 0 to |order|
      invariant forall k :: k in keys <==> k in named || exists id :: id in Done(order, i) && k in MirrorKey(q, nodes)(id)
    {
      DoneStep(order, schemaPost.Keys, i);
      var key := StoreKey(q.corpusId, "schema:" + order[i]);
      if key in nodes && nodes[key].layer == "ontology" {
        keys := keys + {key};
      }
    }
    assert forall k :: k in keys <==> k in OntologyKeys(nodes, q, schemaPost);
  }

  // ---------- step 3: the graph nodes ----------

  /** What the fate walk does to one node. */
  function FateStep(q: Request, d: Decision): (string, Node) -> Option<Node> {
    (k, node: Node) =>
      match FinalFate(node, q, d)
      case Untouched => Some(node)
      case Shared => Some(node.(ref := SharedRef(node, q, d)))
      case Owned => None
  }

  function FateRemoves(q: Request, d: Decision): (string, Node) -> set<string> {
    (k, node: Node) => if FinalFate(node, q, d) == Owned then {node.nodeId} else {}
  }

  predicate IsKind(nodes: map<string, Node>, q: Request, d: Decision, fate: Fate, k: string) {
    k in nodes && FinalFate(nodes[k], q, d) == fate
  }

  function OwnedIn(nodes: map<string, Node>, q: Request, d: Decision, layer: string): string -> bool {
    k => IsKind(nodes, q, d, Owned, k) && nodes[k].layer == layer
  }

  function OwnedElsewhere(nodes: map<string, Node>, q: Request, d: Decision): string -> bool {
    k => IsKind(nodes, q, d, Owned, k) && nodes[k].layer != "passage" && nodes[k].layer != "fact"
  }

  function SharedIn(nodes: map<string, Node>, q: Request, d: Decision): string -> bool {
    k => IsKind(nodes, q, d, Shared, k)
  }

  /** What the fate walk has found besides the nodes themselves. */
  datatype FateTally = FateTally(
    removedIds: set<string>, rekey: map<string, string>,
    passageNodes: nat, factNodes: nat, otherNodes: nat, sharedNodes: nat)

  ghost predicate KindsCounted(tally: FateTally, was: map<string, Node>, q: Request, d: Decision, done: set<string>) {
    && Counted(tally.passageNodes, done, OwnedIn(was, q, d, "passage"))
    && Counted(tally.factNodes, done, OwnedIn(was, q, d, "fact"))
    && Counted(tally.otherNodes, done, OwnedElsewhere(was, q, d))
    && Counted(tally.sharedNodes, done, SharedIn(was, q, d))
  }

  ghost predicate FateWalk(nodes: map<string, Node>, tally: FateTally, was: map<string, Node>, base: map<string, string>,
                           q: Request, d: Decision, order: seq<string>, i: nat) {
    && i <= |order|
    && Mapped(was, nodes, Done(order, i), FateStep(q, d))
    && Collected(tally.removedIds, was, Done(order, i), FateRemoves(q, d))
    && tally.rekey == RekeyShared(base, was, q, d, order, i)
    && KindsCounted(tally, was, q, d, Done(order, i))
  }

  /** The tally after one more node. */
  function FateNext(tally: FateTally, node: Node, q: Request, d: Decision): FateTally {
    match FinalFate(node, q, d)
    case Untouched => tally
    case Shared =>
      var first := FirstString(SharedRef(node, q, d), "sourceDocumentIds");
      tally.(rekey := if first.Some? then tally.rekey[node.nodeId := first.value] else tally.rekey,
             sharedNodes := tally.sharedNodes + 1)
    case Owned =>
      var kind := node.layer;
      tally.(removedIds := tally.removedIds + {node.nodeId},
             passageNodes := tally.passageNodes + if kind == "passage" then 1 else 0,
             factNodes := tally.factNodes + if kind == "fact" then 1 else 0,
             otherNodes := tally.otherNodes + if kind != "passage" && kind != "fact" then 1 else 0)
  }

  lemma FateWalkStep(nodes: map<string, Node>, tally: FateTally, was: map<string, Node>, base: map<string, string>,
                     q: Request, d: Decision, order: seq<string>, keys: set<string>, i: nat)
    requires FateWalk(nodes, tally, was, base, q, d, order, i) && i < |order| && Listing(order, keys) && keys <= was.Keys
    requires order[i] !in d.ontologyKeys
    ensures var k := order[i];
      && k in nodes && k in was && nodes[k] == was[k]
      && FateWalk(Step(nodes, k, FateStep(q, d)(k, was[k])), FateNext(tally, was[k], q, d), was, base, q, d, order, i + 1)
  {
    hide Mapped, Collected, KindsCounted, FinalFate, SharedRef, Listing, FirstString, FateStep, Done;
    var k, done := order[i], Done(order, i);
    DoneStep(order, keys, i);
    MappedStep(was, nodes, done, FateStep(q, d), k);
    CollectedStep(tally.removedIds, was, done, FateRemoves(q, d), k);
    KindsStep(tally, was, q, d, done, k);
    assert tally.removedIds + {} == tally.removedIds;
  }

  lemma KindsStep(tally: FateTally, was: map<string, Node>, q: Request, d: Decision, done: set<string>, k: string)
    requires KindsCounted(tally, was, q, d, done) && k in was && k !in done
    ensures KindsCounted(FateNext(tally, was[k], q, d), was, q, d, done + {k})
  {
    hide Counted, FinalFate, SharedRef, FirstString;
    CountedStep(tally.passageNodes, done, OwnedIn(was, q, d, "passage"), k);
    CountedStep(tally.factNodes, done, OwnedIn(was, q, d, "fact"), k);
    CountedStep(tally.otherNodes, done, OwnedElsewhere(was, q, d), k);
    CountedStep(tally.sharedNodes, done, SharedIn(was, q, d), k);
  }

  function OntologyStep(q: Request, d: Decision): (string, Node) -> Option<Node> {
    (k, node: Node) => if Support(node, q, d).Some? then Some(node.(ref := OntologyRef(node, q, d))) else None
  }

  function OntologyRemoves(q: Request, d: Decision): (string, Node) -> set<string> {
    (k, node: Node) => if Support(node, q, d).None? then {node.nodeId} else {}
  }

  predicate SupportedAt(nodes: map<string, Node>, q: Request, d: Decision, k: string) {
    k in nodes && Support(nodes[k], q, d).Some?
  }

  function SupportedIn(nodes: map<string, Node>, q: Request, d: Decision): string -> bool {
    k => SupportedAt(nodes, q, d, k)
  }

  function UnsupportedIn(nodes: map<string, Node>, q: Request, d: Decision): string -> bool {
    k => k in nodes && !SupportedAt(nodes, q, d, k)
  }

  datatype OntologyTally = OntologyTally(removedIds: set<string>, rekey: map<string, string>, pruned: nat, removed: nat)

  ghost predicate OntologyWalk(nodes: map<string, Node>, tally: OntologyTally, was: map<string, Node>, base: map<string, string>,
                               q: Request, d: Decision, order: seq<string>, i: nat) {
    && i <= |order|
    && Mapped(was, nodes, Done(order, i), OntologyStep(q, d))
    && Collected(tally.removedIds, was, Done(order, i), OntologyRemoves(q, d))
    && tally.rekey == RekeyOntology(base, was, q, d, order, i)
    && SupportCounted(tally, was, q, d, Done(order, i))
  }

  ghost predicate SupportCounted(tally: OntologyTally, was: map<string, Node>, q: Request, d: Decision, done: set<string>) {
    && Counted(tally.pruned, done, SupportedIn(was, q, d))
    && Counted(tally.removed, done, UnsupportedIn(was, q, d))
  }

  lemma SupportStep(tally: OntologyTally, was: map<string, Node>, q: Request, d: Decision, done: set<string>, k: string)
    requires SupportCounted(tally, was, q, d, done) && k in was && k !in done
    ensures SupportCounted(OntologyNext(tally, was[k], q, d), was, q, d, done + {k})
  {
    hide Counted, Support;
    CountedStep(tally.pruned, done, SupportedIn(was, q, d), k);
    CountedStep(tally.removed, done, UnsupportedIn(was, q, d), k);
  }

  function OntologyNext(tally: OntologyTally, node: Node, q: Request, d: Decision): OntologyTally {
    var support := Support(node, q, d);
    if support.Some? then tally.(rekey := tally.rekey[node.nodeId := support.value], pruned := tally.pruned + 1)
    else
      tally.(removedIds := tally.removedIds + {node.nodeId}, rekey := tally.rekey - {node.nodeId}, removed := tally.removed + 1)
  }

  lemma OntologyWalkStep(nodes: map<string, Node>, tally: OntologyTally, was: map<string, Node>, base: map<string, string>,
                         q: Request, d: Decision, order: seq<string>, keys: set<string>, i: nat)
    requires OntologyWalk(nodes, tally, was, base, q, d, order, i) && i < |order| && Listing(order, keys) && keys <= was.Keys
    ensures var k := order[i];
      && k in nodes && k in was && nodes[k] == was[k]
      && OntologyWalk(Step(nodes, k, OntologyStep(q, d)(k, was[k])), OntologyNext(tally, was[k], q, d),
                      was, base, q, d, order, i + 1)
  {
    hide Mapped, Collected, SupportCounted, Support, OntologyRef, OntologyStep, Listing, Done;
    var k, done := order[i], Done(order, i);
    DoneStep(order, keys, i);
    MappedStep(was, nodes, done, OntologyStep(q, d), k);
    CollectedStep(tally.removedIds, was, done, OntologyRemoves(q, d), k);
    SupportStep(tally, was, q, d, done, k);
    assert tally.removedIds + {} == tally.removedIds;
  }

  // ---------- steps 4 to 7 as walks ----------

  function CutStep(q: Request, removedIds: set<string>, removedFacts: set<string>): (string, Edge) -> Option<Edge> {
    (k, e: Edge) => if Cut(e, q, removedIds, removedFacts) then None else Some(e)
  }

  function CutEnds(q: Request, removedIds: set<string>, removedFacts: set<string>): (string, Edge) -> set<string> {
    (k, e: Edge) =>
      if Cut(e, q, removedIds, removedFacts) then set x | x in Ends(e) && StartsWith(x, "entity:") && x !in removedIds else {}
  }

  function ApartStep(q: Request, ids: set<string>): (string, Edge) -> Option<Edge> {
    (k, e: Edge) => if e.corpusId == q.corpusId && Touches(e, ids) then None else Some(e)
  }

  function SupportEnds(q: Request, candidates: set<string>): (string, Edge) -> set<string> {
    (k, e: Edge) => if Supports(e, q) then Ends(e) * candidates else {}
  }

  function VectorStep(q: Request, removedIds: set<string>, rekey: map<string, string>): (string, Vector) -> Option<Vector> {
    (k, v: Vector) => VectorAfter(v, q, removedIds, rekey)
  }

  function VectorDrops(q: Request, removedIds: set<string>, rekey: map<string, string>): (string, Vector) -> set<string> {
    (k, v: Vector) => if VectorAfter(v, q, removedIds, rekey).None? then {k} else {}
  }

  function RekeyedIn(vectors: map<string, Vector>, q: Request, removedIds: set<string>,
                     rekey: map<string, string>): string -> bool {
    k => k in vectors && IsRekeyed(vectors[k], q, removedIds, rekey)
  }

  function LexicalStep(q: Request): (string, Passage) -> Option<Passage> {
    (k, p: Passage) => if p.corpusId == q.corpusId && p.documentId == q.documentId then None else Some(p)
  }

  // ---------- the server ----------

  class Server {
    var nodes: map<string, Node>
    var edges: map<string, Edge>
    var vectors: map<string, Vector>
    var vectorValues: map<string, seq<real>>
    var passages: map<string, Passage>
    var snapshots: map<string, Json>
    var cacheDirty: bool

    function View(): Store
      reads this
    {
      Store(nodes, edges, vectors, vectorValues, passages, snapshots)
    }

    /** The fate of one node, with the last upgrade for a shared fact that is gone. */
    method ApplyFate(k: string, grounded: Fate, tally: FateTally, q: Request, d: Decision) returns (next: FateTally)
      requires k in nodes && grounded == GroundedFate(nodes[k], q, d.removedPassages)
      modifies this`nodes
      ensures nodes == Step(old(nodes), k, FateStep(q, d)(k, old(nodes)[k]))
      ensures next == FateNext(tally, old(nodes)[k], q, d)
    {
      hide GroundedFate, SharedRef, FirstString;
      var node, fate := nodes[k], grounded;
      var id := GetStr(node.ref, "factId");
      if fate == Shared && node.layer == "fact" && id.Some? && id.value in d.removedFacts {
        fate := Owned;
      }
      assert fate == FinalFate(node, q, d);
      next := tally;
      if fate == Shared {
        var ref := SharedRef(node, q, d);
        nodes := nodes[k := node.(ref := ref)];
        var first := FirstString(ref, "sourceDocumentIds");
        if first.Some? {
          next := next.(rekey := next.rekey[node.nodeId := first.value]);
        }
        next := next.(sharedNodes := next.sharedNodes + 1);
      } else if fate == Owned {
        nodes := nodes - {k};
        if node.layer == "passage" {
          next := next.(passageNodes := next.passageNodes + 1);
        } else if node.layer == "fact" {
          next := next.(factNodes := next.factNodes + 1);
        } else {
          next := next.(otherNodes := next.otherNodes + 1);
        }
        next := next.(removedIds := next.removedIds + {node.nodeId});
      } else {
        assert nodes[k := node] == nodes;
      }
    }

    method ApplyFates(fates: map<string, Fate>, base: map<string, string>, q: Request, d: Decision, order: seq<string>)
      returns (tally: FateTally)
      requires Listing(order, fates.Keys) && fates.Keys <= nodes.Keys && fates.Keys !! d.ontologyKeys
      requires forall k :: k in fates ==> fates[k] == GroundedFate(nodes[k], q, d.removedPassages)
      modifies this`nodes
      ensures FateWalk(nodes, tally, old(nodes), base, q, d, order, |order|)
    {
      hide FateWalk, Listing, GroundedFate, FateNext, FateStep;
      tally := FateTally({}, base, 0, 0, 0, 0);
      FateWalkStarts(nodes, base, q, d, order);
      for i := 0 to |order|
        invariant FateWalk(nodes, tally, old(nodes), base, q, d, order, i)
      {
        ListedKey(order, fates.Keys, i);
        FateWalkStep(nodes, tally, old(nodes), base, q, d, order, fates.Keys, i);
        tally := ApplyFate(order[i], fates[order[i]], tally, q, d);
      }
    }

    method ApplySupport(k: string, tally: OntologyTally, q: Request, d: Decision) returns (next: OntologyTally)
      requires k in nodes
      modifies this`nodes
      ensures nodes == Step(old(nodes), k, OntologyStep(q, d)(k, old(nodes)[k]))
      ensures next == OntologyNext(tally, old(nodes)[k], q, d)
    {
      hide OntologyRef, FirstString;
      var node := nodes[k];
      var ref := OntologyRef(node, q, d);
      var support := FirstString(ref, "sourceDocumentIds");
      if support.Some? {
        nodes := nodes[k := node.(ref := ref)];
        next := tally.(rekey := tally.rekey[node.nodeId := support.value], pruned := tally.pruned + 1);
      } else {
        nodes := nodes - {k};
        next := tally.(removedIds := tally.removedIds + {node.nodeId}, rekey := tally.rekey - {node.nodeId},
                       removed := tally.removed + 1);
      }
    }

    method ApplyOntology(base: map<string, string>, q: Request, d: Decision, order: seq<string>) returns (tally: OntologyTally)
      requires Listing(order, d.ontologyKeys) && d.ontologyKeys <= nodes.Keys
      modifies this`nodes
      ensures OntologyWalk(nodes, tally, old(nodes), base, q, d, order, |order|)
    {
      hide OntologyWalk, Listing, OntologyNext, OntologyStep;
      tally := OntologyTally({}, base, 0, 0);
      OntologyWalkStarts(nodes, base, q, d, order);
      for i := 0 to |order|
        invariant OntologyWalk(nodes, tally, old(nodes), base, q, d, order, i)
      {
        OntologyWalkStep(nodes, tally, old(nodes), base, q, d, order, d.ontologyKeys, i);
        tally := ApplySupport(order[i], tally, q, d);
      }
    }

    /** `edges.retain`: adjacent and fact-carrying edges go, their entity endpoints are remembered. */
    method CutEdges(q: Request, removedIds: set<string>, removedFacts: set<string>, order: seq<string>) returns (ends: set<string>)
      requires Listing(order, edges.Keys)
      modifies this`edges
      ensures edges == EdgesKept(old(edges), q, removedIds, removedFacts)
      ensures Collected(ends, old(edges), old(edges).Keys, CutEnds(q, removedIds, removedFacts))
    {
      hide Mapped, Collected, Listing, Cut, Ends;
      ghost var was, f, g := edges, CutStep(q, removedIds, removedFacts), CutEnds(q, removedIds, removedFacts);
      ends := {};
      NothingMapped(was, f);
      NothingCollected(was, g);
      DoneAll(order, was.Keys);
      for i := 0 to |order|
        invariant Mapped(was, edges, Done(order, i), f)
        invariant Collected(ends, was, Done(order, i), g)
      {
        DoneStep(order, was.Keys, i);
        MappedStep(was, edges, Done(order, i), f, order[i]);
        CollectedStep(ends, was, Done(order, i), g, order[i]);
        var k, e := order[i], edges[order[i]];
        if Cut(e, q, removedIds, removedFacts) {
          ends := ends + set x | x in Ends(e) && StartsWith(x, "entity:") && x !in removedIds;
          edges := edges - {k};
        } else {
          assert edges[k := e] == edges && ends + {} == ends;
        }
      }
      MappedAll(was, edges, was.Keys, f);
      EdgesKeptAre(was, q, removedIds, removedFacts);
    }

    /** The mention and co-occurrence edges of the corpus support their endpoints. */
    method FindSupported(q: Request, candidates: set<string>, order: seq<string>) returns (supported: set<string>)
      requires Listing(order, edges.Keys)
      ensures supported == Supported(edges, q, candidates)
    {
      hide Collected, Listing, Supports, Ends, Supported;
      ghost var g := SupportEnds(q, candidates);
      supported := {};
      NothingCollected(edges, g);
      DoneAll(order, edges.Keys);
      for i := 0 to |order|
        invariant Collected(supported, edges, Done(order, i), g)
      {
        DoneStep(order, edges.Keys, i);
        CollectedStep(supported, edges, Done(order, i), g, order[i]);
        var e := edges[order[i]];
        if Supports(e, q) {
          supported := supported + Ends(e) * candidates;
        } else {
          assert supported + {} == supported;
        }
      }
      SupportedAre(supported, edges, q, candidates);
    }

    method PartEdges(q: Request, ids: set<string>, order: seq<string>)
      requires Listing(order, edges.Keys)
      modifies this`edges
      ensures edges == EdgesApart(old(edges), q, ids)
    {
      hide Mapped, Listing, Touches;
      ghost var was, f := edges, ApartStep(q, ids);
      NothingMapped(was, f);
      DoneAll(order, was.Keys);
      for i := 0 to |order|
        invariant Mapped(was, edges, Done(order, i), f)
      {
        DoneStep(order, was.Keys, i);
        MappedStep(was, edges, Done(order, i), f, order[i]);
        var k, e := order[i], edges[order[i]];
        if e.corpusId == q.corpusId && Touches(e, ids) {
          edges := edges - {k};
        } else {
          assert edges[k := e] == edges;
        }
      }
      MappedAll(was, edges, was.Keys, f);
      EdgesApartAre(was, q, ids);
    }

    /** The orphans leave; every one of them is still there when its turn comes. */
    method RemoveOrphans(q: Request, orphans: set<string>, order: seq<string>) returns (removed: nat)
      requires Listing(order, orphans) && OrphanKeys(q, orphans) <= nodes.Keys
      modifies this`nodes
      ensures nodes == old(nodes) - OrphanKeys(q, orphans) && removed == |order|
    {
      hide Listing, StoreKey;
      removed := 0;
      DoneAll(order, orphans);
      assert OrphanKeys(q, {}) == {} && nodes - {} == nodes;
      for i := 0 to |order|
        invariant nodes == old(nodes) - OrphanKeys(q, Done(order, i)) && removed == i
      {
        DoneStep(order, orphans, i);
        OrphanStep(q, Done(order, i), order[i]);
        var key := StoreKey(q.corpusId, order[i]);
        assert key in OrphanKeys(q, orphans);
        if key in nodes {
          nodes := nodes - {key};
          removed := removed + 1;
        } else {
          assert false;
        }
      }
    }

    /** The `retain` closure on one vector. */
    method RetainVector(k: string, q: Request, removedIds: set<string>,
                        rekey: map<string, string>) returns (dropped: bool, rekeyed: bool)
      requires k in vectors
      modifies this`vectors
      ensures vectors == Step(old(vectors), k, VectorAfter(old(vectors)[k], q, removedIds, rekey))
      ensures dropped <==> VectorAfter(old(vectors)[k], q, removedIds, rekey).None?
      ensures rekeyed <==> IsRekeyed(old(vectors)[k], q, removedIds, rekey)
    {
      var v := vectors[k];
      dropped, rekeyed := false, false;
      assert vectors[k := v] == vectors;
      if v.corpusId != q.corpusId {
        return;
      }
      if v.id in removedIds {
        vectors := vectors - {k};
        return true, false;
      }
      if GetStr(v.metadata, "documentId") != Some(q.documentId) {
        return;
      }
      if v.id in rekey && v.metadata.Obj? {
        vectors := vectors[k := v.(metadata := Obj(v.metadata.fields["documentId" := Str(rekey[v.id])]))];
        rekeyed := true;
      } else {
        vectors := vectors - {k};
        dropped := true;
      }
    }

    method RetainVectors(q: Request, removedIds: set<string>, rekey: map<string, string>, order: seq<string>)
      returns (dropped: set<string>, rekeyed: nat)
      requires Listing(order, vectors.Keys)
      modifies this`vectors
      ensures vectors == VectorsAfter(old(vectors), q, removedIds, rekey)
      ensures dropped == DroppedVectors(old(vectors), q, removedIds, rekey)
      ensures rekeyed == |RekeyedVectors(old(vectors), q, removedIds, rekey)|
    {
      hide VectorWalk, Listing, VectorAfter, IsRekeyed, VectorsAfter, DroppedVectors, RekeyedVectors;
      dropped, rekeyed := {}, 0;
      VectorWalkStarts(vectors, q, removedIds, rekey);
      DoneAll(order, vectors.Keys);
      for i := 0 to |order|
        invariant VectorWalk(vectors, dropped, rekeyed, old(vectors), q, removedIds, rekey, Done(order, i))
      {
        DoneStep(order, old(vectors).Keys, i);
        VectorWalkStep(vectors, dropped, rekeyed, old(vectors), q, removedIds, rekey, Done(order, i), order[i]);
        var gone, moved := RetainVector(order[i], q, removedIds, rekey);
        dropped := dropped + (if gone then {order[i]} else {});
        rekeyed := rekeyed + (if moved then 1 else 0);
      }
      VectorsAre(vectors, old(vectors), dropped, rekeyed, q, removedIds, rekey);
    }

    method RetainPassages(q: Request, order: seq<string>)
      requires Listing(order, passages.Keys)
      modifies this`passages
      ensures passages == PassagesAfter(old(passages), q)
    {
      hide Mapped, Listing;
      ghost var was, f := passages, LexicalStep(q);
      NothingMapped(was, f);
      DoneAll(order, was.Keys);
      for i := 0 to |order|
        invariant Mapped(was, passages, Done(order, i), f)
      {
        DoneStep(order, was.Keys, i);
        MappedStep(was, passages, Done(order, i), f, order[i]);
        var k, p := order[i], passages[order[i]];
        if p.corpusId == q.corpusId && p.documentId == q.documentId {
          passages := passages - {k};
        } else {
          assert passages[k := p] == passages;
        }
      }
      MappedAll(was, passages, was.Keys, f);
      LexicalIs(was, q);
    }

    /** The snapshot pass: sections rewritten, mirrors and ids collected, and the ontology nodes to visit listed. */
    method RewriteSnapshot(q: Request, scan: Scan, order: Orders) returns (d: Decision, c: SnapshotCounts)
      requires IsOrders(order) && ScanIs(scan, View(), q)
      modifies this`snapshots
      ensures d == Decide(old(View()), q) && snapshots == SnapshotsAfter(old(View()), q, d)
      ensures SnapshotCounted(c, old(View()), q, d)
    {
      hide ScanIs, FactsRewritten, SchemasRewritten, SnapshotItems, OntologyKeys, PassagesKept, FactsAfter, SchemasAfter, Decide;
      ghost var s := View();
      var passages, facts, schemas := SnapshotItems(View(), q.corpusId, "passages"), SnapshotItems(View(), q.corpusId, "facts"),
        SnapshotItems(View(), q.corpusId, "schemas");
      var kept := KeepPassages(passages, q);
      var pass := RewriteFacts(facts, q, scan.passages);
      d := Decision(scan.passages, scan.facts + pass.dropped, pass.touched, scan.needed, pass.post, map[], {});
      var rewritten := RewriteSchemas(schemas, q, d);
      if q.corpusId in snapshots {
        snapshots := snapshots[q.corpusId :=
          WithItems(WithItems(WithItems(snapshots[q.corpusId], "passages", kept), "facts", pass.kept), "schemas", rewritten.kept)];
      }
      OrdersList(order, 5, rewritten.post.Keys);
      NamedAre(scan, s, q);
      var keys := ListMirrors(nodes, q, rewritten.post, scan.named, order(5, rewritten.post.Keys));
      ghost var open := d;
      d := d.(schemaPost := rewritten.post, ontologyKeys := keys);
      c := SnapshotCounts(Minus(|passages|, |kept|), Minus(|facts|, |pass.kept|), pass.shared, rewritten.affected,
        rewritten.adjusted);
      SnapshotDecided(s, q, scan, pass, rewritten, open, d, c);
    }

    /** Step 3: the fates, then the listed ontology nodes. */
    method SettleNodes(fates: map<string, Fate>, q: Request, d: Decision, orders: Orders)
      returns (tally: FateTally, ontology: OntologyTally)
      requires IsOrders(orders) && d.ontologyKeys == OntologyKeys(nodes, q, d.schemaPost)
      requires fates.Keys == FatedKeys(nodes, q) && fates.Keys !! d.ontologyKeys && d.ontologyKeys <= nodes.Keys
      requires forall k :: k in fates ==> fates[k] == GroundedFate(nodes[k], q, d.removedPassages)
      modifies this`nodes
      ensures NodesSettled(old(nodes), nodes, tally, ontology, q, d)
      ensures ontology.rekey == Rekey(old(nodes), q, d, orders)
    {
      hide IsOrders, FateWalk, OntologyWalk, Rekey, RekeySchemas, NodesSettled, GroundedFate, OntologyKeys;
      ghost var was := nodes;
      OrdersList(orders, 0, fates.Keys);
      OrdersList(orders, 1, d.ontologyKeys);
      tally := ApplyFates(fates, RekeySchemas(d.schemaPost), q, d, orders(0, fates.Keys));
      ghost var pruned := nodes;
      ListedStay(was, pruned, tally, q, d, fates.Keys, orders);
      ontology := ApplyOntology(tally.rekey, q, d, orders(1, d.ontologyKeys));
      NodesDone(was, pruned, nodes, tally, ontology, q, d, orders);
    }

    /** Steps 4 and 5: the cut, the orphan round, and the edges of what left. */
    method SettleEdges(q: Request, d: Decision, removedIds: set<string>, orders: Orders, ghost was: map<string, Node>)
      returns (orphans: nat, allRemoved: set<string>, removedEdges: nat)
      requires IsOrders(orders)
      requires nodes == NodesAfter(was, q, d) && removedIds == RemovedIds(was, q, d)
      modifies this`nodes, this`edges
      ensures var g := GraphAfter(was, old(edges), q, d);
        && nodes == g.nodes && edges == g.edges && allRemoved == g.allRemoved
        && orphans == |g.orphans| && removedEdges == Minus(|old(edges)|, |g.edges|)
    {
      hide IsOrders, NodesAfter, RemovedIds, EdgesKept, EdgesApart, OrphanKeys, Supported, Candidates, Collected;
      ghost var edges0 := edges;
      var before := |edges|;
      OrdersList(orders, 6, edges.Keys);
      var ends := CutEdges(q, removedIds, d.removedFacts, orders(6, edges.Keys));
      var candidates := set x | x in ends && StoreKey(q.corpusId, x) in nodes && nodes[StoreKey(q.corpusId, x)].layer == "entity";
      CandidatesAre(ends, candidates, edges0, nodes, q, removedIds, d.removedFacts);
      orphans, allRemoved := 0, removedIds;
      if candidates != {} {
        OrdersList(orders, 7, edges.Keys);
        var supported := FindSupported(q, candidates, orders(7, edges.Keys));
        var leaving := candidates - supported;
        OrdersList(orders, 8, leaving);
        OrphansPresent(edges0, nodes, q, removedIds, d.removedFacts, leaving);
        orphans := RemoveOrphans(q, leaving, orders(8, leaving));
        ListingSize(orders(8, leaving), leaving);
        allRemoved := removedIds + leaving;
        OrdersList(orders, 9, edges.Keys);
        PartEdges(q, allRemoved, orders(9, edges.Keys));
      } else {
        NoOrphans(q, nodes, removedIds, Supported(edges, q, candidates));
      }
      removedEdges := Minus(before, |edges|);
    }

    /** Steps 6 and 7: the vectors with their values, and the lexical passages. */
    method RetainStores(q: Request, removedIds: set<string>, rekey: map<string, string>, orders: Orders)
      returns (dropped: nat, rekeyed: nat, lexical: nat)
      requires IsOrders(orders)
      modifies this`vectors, this`vectorValues, this`passages
      ensures vectors == VectorsAfter(old(vectors), q, removedIds, rekey)
      ensures vectorValues == old(vectorValues) - DroppedVectors(old(vectors), q, removedIds, rekey)
      ensures passages == PassagesAfter(old(passages), q)
      ensures dropped == |DroppedVectors(old(vectors), q, removedIds, rekey)|
      ensures rekeyed == |RekeyedVectors(old(vectors), q, removedIds, rekey)|
      ensures lexical == Minus(|old(passages)|, |passages|)
    {
      hide IsOrders, VectorsAfter, DroppedVectors, RekeyedVectors, PassagesAfter;
      OrdersList(orders, 10, vectors.Keys);
      var keys, moved := RetainVectors(q, removedIds, rekey, orders(10, vectors.Keys));
      vectorValues := vectorValues - keys;
      var before := |passages|;
      OrdersList(orders, 11, passages.Keys);
      RetainPassages(q, orders(11, passages.Keys));
      dropped, rekeyed, lexical := |keys|, moved, Minus(before, |passages|);
    }

    /**
      `apply_memory_delete_document`: the server's maps become `Delete` of what
      they were, the report is `Report`, and only a reported noop keeps the cache.
     */
    method Apply(q: Request, orders: Orders) returns (report: Counts, noop: bool)
      requires IsOrders(orders)
      modifies this
      ensures View() == Delete(old(View()), q, orders)
      ensures report == Report(old(View()), q, orders)
      ensures noop <==> Total(report) == 0
      ensures cacheDirty <==> old(cacheDirty) || !noop
    {
      hide IsOrders, ScanIs, Decide, SnapshotsAfter, SnapshotCounted, FateWalk, OntologyWalk, GraphAfter, VectorsAfter,
        DroppedVectors,
        RekeyedVectors, PassagesAfter, Delete, Report, Rekey, RekeySchemas, NodesAfter, RemovedIds,
        Fated, OfLayer, GroundedFate, FatedKeys, NodesSettled;
      ghost var s := View();
      var scan := ScanStore(View(), q, orders);
      var d, sc := RewriteSnapshot(q, scan, orders);
      FatesReady(scan, s, q, d);
      var fates, ontology := SettleNodes(scan.fates, q, d, orders);
      SettledParts(s.nodes, nodes, fates, ontology, q, d);
      var orphans, removed, removedEdges := SettleEdges(q, d, fates.removedIds + ontology.removedIds, orders, s.nodes);
      var dropped, rekeyed, lexical := RetainStores(q, removed, ontology.rekey, orders);
      report := Counts(sc.passages, sc.facts, sc.shared, sc.affected, sc.adjusted,
        fates.passageNodes, fates.factNodes, orphans, fates.otherNodes, fates.sharedNodes, ontology.pruned, ontology.removed,
        removedEdges, dropped, rekeyed, lexical);
      Finished(s, View(), q, orders, d, sc, fates, ontology, report);
      noop := Total(report) == 0;
      if !noop {
        cacheDirty := true;
      }
    }
  }

  datatype SnapshotCounts = SnapshotCounts(passages: nat, facts: nat, shared: nat, affected: nat, adjusted: nat)

  ghost predicate SnapshotCounted(c: SnapshotCounts, s: Store, q: Request, d: Decision) {
    var passages, facts := SnapshotItems(s, q.corpusId, "passages"), SnapshotItems(s, q.corpusId, "facts");
    var schemas := SnapshotItems(s, q.corpusId, "schemas");
    && c.passages == Minus(|passages|, |PassagesKept(passages, q)|)
    && c.facts == Minus(|facts|, |FactsAfter(facts, q, d.removedPassages, |facts|)|)
    && c.shared == SharedFacts(facts, q, d.removedPassages, |facts|)
    && c.affected == AffectedSchemas(schemas, q, d, |schemas|)
    && c.adjusted == AdjustedSchemas(schemas, q, d, |schemas|)
  }

  lemma NamedAre(scan: Scan, s: Store, q: Request)
    requires ScanIs(scan, s, q)
    ensures scan.named == set k | k in s.nodes && NamesDocument(s.nodes[k], q)
  {
  }

  /** The counters of the schema pass depend only on the parts of the decision that were known by then. */
  lemma {:induction false} SameCounters(schemas: seq<Json>, q: Request, a: Decision, b: Decision, k: nat)
    requires k <= |schemas| && a.removedFacts == b.removedFacts && a.touched == b.touched
    ensures AffectedSchemas(schemas, q, a, k) == AffectedSchemas(schemas, q, b, k)
    ensures AdjustedSchemas(schemas, q, a, k) == AdjustedSchemas(schemas, q, b, k)
  {
    hide SchemaAffected, SafeCount;
    if k > 0 {
      SameCounters(schemas, q, a, b, k - 1);
    }
  }

  lemma SnapshotDecided(s: Store, q: Request, scan: Scan, pass: FactPass, rewritten: SchemaPass, open: Decision,
                        d: Decision, c: SnapshotCounts)
    requires var facts, schemas := SnapshotItems(s, q.corpusId, "facts"), SnapshotItems(s, q.corpusId, "schemas");
      && ScanIs(scan, s, q) && FactsRewritten(pass, facts, q, scan.passages, |facts|)
      && SchemasRewritten(rewritten, schemas, q, open, |schemas|)
      && open == Decision(scan.passages, scan.facts + pass.dropped, pass.touched, scan.needed, pass.post, map[], {})
      && d == open.(schemaPost := rewritten.post, ontologyKeys := OntologyKeys(s.nodes, q, rewritten.post))
      && c == SnapshotCounts(Minus(|SnapshotItems(s, q.corpusId, "passages")|,
        |PassagesKept(SnapshotItems(s, q.corpusId, "passages"), q)|),
                             Minus(|facts|, |pass.kept|), pass.shared, rewritten.affected, rewritten.adjusted)
    ensures d == Decide(s, q) && SnapshotCounted(c, s, q, d)
    ensures pass.kept == FactsAfter(SnapshotItems(s, q.corpusId, "facts"), q, d.removedPassages,
      |SnapshotItems(s, q.corpusId, "facts")|)
  {
    hide SnapshotItems, FatesOf, OntologyKeys, Needed, RemovedPassages, NodeFacts, FactsAfter, DroppedFacts,
      TouchedSchemas, FactPost,
      SchemaPost, SharedFacts, AffectedSchemas, AdjustedSchemas, SchemasAfter, PassagesKept, FatedKeys, NamesDocument;
    var schemas := SnapshotItems(s, q.corpusId, "schemas");
    SameCounters(schemas, q, open, d, |schemas|);
  }

  lemma CandidatesAre(ends: set<string>, candidates: set<string>, edges: map<string, Edge>, nodes: map<string, Node>, q: Request,
                      removedIds: set<string>, removedFacts: set<string>)
    requires Collected(ends, edges, edges.Keys, CutEnds(q, removedIds, removedFacts))
    requires candidates == set x | x in ends && StoreKey(q.corpusId, x) in nodes && nodes[StoreKey(q.corpusId, x)].layer == "entity"
    ensures candidates == Candidates(edges, nodes, q, removedIds, removedFacts)
  {
    hide Cut, Ends, StoreKey;
    var spec := Candidates(edges, nodes, q, removedIds, removedFacts);
    forall x ensures x in candidates <==> x in spec {
      if x in candidates {
        var k :| k in edges.Keys && k in edges && x in CutEnds(q, removedIds, removedFacts)(k, edges[k]);
        assert IsEntity(nodes, q, x);
      }
      if x in spec {
        var k :| k in edges && x in Ends(edges[k]) && Cut(edges[k], q, removedIds, removedFacts) && x !in removedIds
          && IsEntity(nodes, q, x);
        assert x in CutEnds(q, removedIds, removedFacts)(k, edges[k]);
      }
    }
  }

  lemma OrphansPresent(edges: map<string, Edge>, nodes: map<string, Node>, q: Request, removedIds: set<string>,
                       removedFacts: set<string>,
                       orphans: set<string>)
    requires orphans <= Candidates(edges, nodes, q, removedIds, removedFacts)
    ensures OrphanKeys(q, orphans) <= nodes.Keys
  {
    hide StoreKey, Cut;
  }

  lemma {:induction false} ListingSize(order: seq<string>, keys: set<string>)
    requires Listing(order, keys)
    ensures |order| == |keys|
  {
    if order != [] {
      var last := |order| - 1;
      ListingSize(order[..last], keys - {order[last]});
    } else {
      assert keys == {} by {
        forall k ensures k !in keys {
          assert k in order <==> k in keys;
        }
      }
    }
  }

  lemma NoOrphans(q: Request, nodes: map<string, Node>, removedIds: set<string>, supported: set<string>)
    ensures {} - supported == {} && OrphanKeys(q, {} - supported) == {} && nodes - OrphanKeys(q, {} - supported) == nodes
    ensures removedIds + ({} - supported) == removedIds
  {
  }

  lemma FatesReady(scan: Scan, s: Store, q: Request, d: Decision)
    requires ScanIs(scan, s, q) && d == Decide(s, q)
    ensures scan.fates.Keys <= s.nodes.Keys && scan.fates.Keys == FatedKeys(s.nodes, q) && scan.fates.Keys !! d.ontologyKeys
    ensures forall k :: k in scan.fates ==> scan.fates[k] == GroundedFate(s.nodes[k], q, d.removedPassages)
    ensures d.ontologyKeys == OntologyKeys(s.nodes, q, d.schemaPost) && d.ontologyKeys <= s.nodes.Keys
  {
    hide RemovedPassages, NodeFacts, Needed, SchemaPost, FactPost, GroundedFate, LosesAll;
  }

  /** The ontology walk finds its nodes as they were. */
  lemma ListedStay(was: map<string, Node>, nodes: map<string, Node>, tally: FateTally, q: Request, d: Decision,
                   fated: set<string>, orders: Orders)
    requires IsOrders(orders) && fated == FatedKeys(was, q) && fated !! d.ontologyKeys && d.ontologyKeys <= was.Keys
    requires var order := orders(0, fated); FateWalk(nodes, tally, was, RekeySchemas(d.schemaPost), q, d, order, |order|)
    ensures d.ontologyKeys <= nodes.Keys && forall k :: k in d.ontologyKeys ==> nodes[k] == was[k]
    ensures Mapped(was, nodes, fated, FateStep(q, d))
  {
    hide FatedKeys, FinalFate, Collected, Counted, RekeySchemas;
    OrdersList(orders, 0, fated);
    DoneAll(orders(0, fated), fated);
  }

  lemma {:induction false} RekeyOntologySame(base: map<string, string>, a: map<string, Node>, b: map<string, Node>,
                                             q: Request, d: Decision,
                                             order: seq<string>, k: nat)
    requires k <= |order| && forall i :: 0 <= i < |order| ==> order[i] in a && order[i] in b && a[order[i]] == b[order[i]]
    ensures RekeyOntology(base, a, q, d, order, k) == RekeyOntology(base, b, q, d, order, k)
  {
    hide Support;
    if k > 0 {
      RekeyOntologySame(base, a, b, q, d, order, k - 1);
    }
  }

  ghost predicate NodesSettled(was: map<string, Node>, nodes: map<string, Node>, fates: FateTally,
                               ontology: OntologyTally, q: Request, d: Decision) {
    var owned, unsupported := Fated(was, q, d, Owned), Unsupported(was, q, d);
    && nodes == NodesAfter(was, q, d)
    && fates.removedIds + ontology.removedIds == RemovedIds(was, q, d)
    && fates.passageNodes == |OfLayer(was, owned, "passage")|
    && fates.factNodes == |OfLayer(was, owned, "fact")|
    && fates.otherNodes == |owned - OfLayer(was, owned, "passage") - OfLayer(was, owned, "fact")|
    && fates.sharedNodes == |Fated(was, q, d, Shared)|
    && ontology.pruned == |d.ontologyKeys * was.Keys - unsupported|
    && ontology.removed == |unsupported|
  }

  lemma SettledParts(was: map<string, Node>, nodes: map<string, Node>, fates: FateTally, ontology: OntologyTally,
                     q: Request, d: Decision)
    requires NodesSettled(was, nodes, fates, ontology, q, d)
    ensures nodes == NodesAfter(was, q, d) && fates.removedIds + ontology.removedIds == RemovedIds(was, q, d)
  {
  }

  /** Both walks together are step 3. */
  lemma NodesDone(was: map<string, Node>, pruned: map<string, Node>, nodes: map<string, Node>, fates: FateTally,
                  ontology: OntologyTally,
                  q: Request, d: Decision, orders: Orders)
    requires IsOrders(orders) && d.ontologyKeys == OntologyKeys(was, q, d.schemaPost)
    requires FatedKeys(was, q) !! d.ontologyKeys && d.ontologyKeys <= was.Keys
    requires var order := orders(0, FatedKeys(was, q));
      FateWalk(pruned, fates, was, RekeySchemas(d.schemaPost), q, d, order, |order|)
    requires var order := orders(1, d.ontologyKeys); OntologyWalk(nodes, ontology, pruned, fates.rekey, q, d, order, |order|)
    ensures NodesSettled(was, nodes, fates, ontology, q, d)
    ensures ontology.rekey == Rekey(was, q, d, orders)
  {
    hide FateWalk, OntologyWalk, RekeySchemas, RekeyShared, RekeyOntology, FatedKeys, OntologyKeys, NodesSettled, Mapped, FateStep;
    var fated, listed := FatedKeys(was, q), orders(1, d.ontologyKeys);
    ListedStay(was, pruned, fates, q, d, fated, orders);
    OrdersList(orders, 0, fated);
    OrdersList(orders, 1, d.ontologyKeys);
    FatesSettled(pruned, fates, was, q, d, orders(0, fated));
    OntologySettled(nodes, ontology, was, pruned, fates.rekey, q, d, listed);
    WalksSettled(was, pruned, nodes, fates, ontology, q, d);
  }

  ghost predicate FatesSettledAs(pruned: map<string, Node>, fates: FateTally, was: map<string, Node>, q: Request, d: Decision) {
    && Mapped(was, pruned, FatedKeys(was, q), FateStep(q, d))
    && Collected(fates.removedIds, was, FatedKeys(was, q), FateRemoves(q, d))
    && Counted(fates.passageNodes, FatedKeys(was, q), OwnedIn(was, q, d, "passage"))
    && Counted(fates.factNodes, FatedKeys(was, q), OwnedIn(was, q, d, "fact"))
    && Counted(fates.otherNodes, FatedKeys(was, q), OwnedElsewhere(was, q, d))
    && Counted(fates.sharedNodes, FatedKeys(was, q), SharedIn(was, q, d))
  }

  lemma FatesSettled(pruned: map<string, Node>, fates: FateTally, was: map<string, Node>, q: Request, d: Decision,
                     order: seq<string>)
    requires Listing(order, FatedKeys(was, q)) && FateWalk(pruned, fates, was, RekeySchemas(d.schemaPost), q, d, order, |order|)
    ensures FatesSettledAs(pruned, fates, was, q, d)
    ensures fates.rekey == RekeyShared(RekeySchemas(d.schemaPost), was, q, d, order, |order|)
  {
    hide Mapped, Collected, Counted, FatedKeys, RekeySchemas, RekeyShared, Listing;
    DoneAll(order, FatedKeys(was, q));
  }

  ghost predicate OntologySettledAs(nodes: map<string, Node>, ontology: OntologyTally, pruned: map<string, Node>,
                                    q: Request, d: Decision) {
    && Mapped(pruned, nodes, d.ontologyKeys, OntologyStep(q, d))
    && Collected(ontology.removedIds, pruned, d.ontologyKeys, OntologyRemoves(q, d))
    && Counted(ontology.pruned, d.ontologyKeys, SupportedIn(pruned, q, d))
    && Counted(ontology.removed, d.ontologyKeys, UnsupportedIn(pruned, q, d))
  }

  lemma OntologySettled(nodes: map<string, Node>, ontology: OntologyTally, was: map<string, Node>, pruned: map<string, Node>,
                        base: map<string, string>, q: Request, d: Decision, order: seq<string>)
    requires Listing(order, d.ontologyKeys) && OntologyWalk(nodes, ontology, pruned, base, q, d, order, |order|)
    requires d.ontologyKeys <= pruned.Keys && d.ontologyKeys <= was.Keys && forall k :: k in d.ontologyKeys ==> pruned[k] == was[k]
    ensures OntologySettledAs(nodes, ontology, pruned, q, d)
    ensures ontology.rekey == RekeyOntology(base, was, q, d, order, |order|)
  {
    hide Mapped, Collected, Counted, RekeyOntology;
    DoneAll(order, d.ontologyKeys);
    forall i | 0 <= i < |order| ensures order[i] in pruned && order[i] in was && pruned[order[i]] == was[order[i]] {
      assert order[i] in order;
    }
    RekeyOntologySame(base, pruned, was, q, d, order, |order|);
  }

  lemma WalksSettled(was: map<string, Node>, pruned: map<string, Node>, nodes: map<string, Node>, fates: FateTally,
                     ontology: OntologyTally,
                     q: Request, d: Decision)
    requires FatesSettledAs(pruned, fates, was, q, d) && OntologySettledAs(nodes, ontology, pruned, q, d)
    requires FatedKeys(was, q) !! d.ontologyKeys && d.ontologyKeys <= was.Keys && d.ontologyKeys <= pruned.Keys
    requires forall k :: k in d.ontologyKeys ==> pruned[k] == was[k]
    ensures NodesSettled(was, nodes, fates, ontology, q, d)
  {
    hide FatesSettledAs, OntologySettledAs, Fated, OfLayer, Unsupported, FatedKeys, NodesAfter, RemovedIds;
    SettledNodes(was, pruned, nodes, fates, ontology, q, d);
    SettledIds(was, pruned, nodes, fates, ontology, q, d);
    SettledFates(was, pruned, fates, q, d);
    SettledOntology(was, pruned, nodes, ontology, q, d);
  }

  lemma UnfatedIsUntouched(was: map<string, Node>, q: Request, d: Decision, k: string)
    requires k in was
    ensures k !in FatedKeys(was, q) ==> FinalFate(was[k], q, d) == Untouched
  {
    hide ScanFate;
  }

  lemma SettledNodes(was: map<string, Node>, pruned: map<string, Node>, nodes: map<string, Node>, fates: FateTally,
                     ontology: OntologyTally,
                     q: Request, d: Decision)
    requires FatesSettledAs(pruned, fates, was, q, d) && OntologySettledAs(nodes, ontology, pruned, q, d)
    requires FatedKeys(was, q) !! d.ontologyKeys && d.ontologyKeys <= was.Keys && d.ontologyKeys <= pruned.Keys
    requires forall k :: k in d.ontologyKeys ==> pruned[k] == was[k]
    ensures nodes == NodesAfter(was, q, d)
  {
    hide FinalFate, Support, OntologyRef, SharedRef, FatedKeys, Collected, Counted;
    var spec := NodesAfter(was, q, d);
    forall k ensures k in nodes <==> k in spec {
      if k in was {
        UnfatedIsUntouched(was, q, d, k);
      }
    }
    forall k | k in spec ensures nodes[k] == spec[k] {
      UnfatedIsUntouched(was, q, d, k);
    }
  }

  lemma SettledIds(was: map<string, Node>, pruned: map<string, Node>, nodes: map<string, Node>, fates: FateTally,
                   ontology: OntologyTally,
                   q: Request, d: Decision)
    requires FatesSettledAs(pruned, fates, was, q, d) && OntologySettledAs(nodes, ontology, pruned, q, d)
    requires FatedKeys(was, q) !! d.ontologyKeys && d.ontologyKeys <= was.Keys && d.ontologyKeys <= pruned.Keys
    requires forall k :: k in d.ontologyKeys ==> pruned[k] == was[k]
    ensures fates.removedIds + ontology.removedIds == RemovedIds(was, q, d)
  {
    hide FinalFate, Support, OntologyRef, SharedRef, FatedKeys, Mapped, Counted;
    var spec := RemovedIds(was, q, d);
    forall x | x in spec ensures x in fates.removedIds + ontology.removedIds {
      var k :| k in was && NodeAfter(k, was[k], q, d).None? && was[k].nodeId == x;
      UnfatedIsUntouched(was, q, d, k);
      if k in d.ontologyKeys {
        assert x in OntologyRemoves(q, d)(k, pruned[k]);
      } else {
        assert x in FateRemoves(q, d)(k, was[k]);
      }
    }
    forall x | x in fates.removedIds ensures x in spec {
      var k :| k in FatedKeys(was, q) && k in was && x in FateRemoves(q, d)(k, was[k]);
      assert NodeAfter(k, was[k], q, d).None?;
    }
    forall x | x in ontology.removedIds ensures x in spec {
      var k :| k in d.ontologyKeys && k in pruned && x in OntologyRemoves(q, d)(k, pruned[k]);
      assert NodeAfter(k, was[k], q, d).None?;
    }
  }

  lemma SettledFates(was: map<string, Node>, pruned: map<string, Node>, fates: FateTally, q: Request, d: Decision)
    requires FatesSettledAs(pruned, fates, was, q, d) && FatedKeys(was, q) !! d.ontologyKeys
    ensures var owned := Fated(was, q, d, Owned);
      && fates.passageNodes == |OfLayer(was, owned, "passage")|
      && fates.factNodes == |OfLayer(was, owned, "fact")|
      && fates.otherNodes == |owned - OfLayer(was, owned, "passage") - OfLayer(was, owned, "fact")|
      && fates.sharedNodes == |Fated(was, q, d, Shared)|
  {
    hide FinalFate, Mapped, Collected, FatedKeys, Fated, OfLayer, OwnedIn, OwnedElsewhere, SharedIn;
    forall k | k in was ensures k !in FatedKeys(was, q) ==> FinalFate(was[k], q, d) == Untouched {
      UnfatedIsUntouched(was, q, d, k);
    }
    OwnedLayer(was, q, d, "passage");
    OwnedLayer(was, q, d, "fact");
    OwnedRest(was, q, d);
    SharedKeys(was, q, d);
  }

  ghost predicate OnlyFated(was: map<string, Node>, q: Request, d: Decision) {
    && FatedKeys(was, q) !! d.ontologyKeys
    && forall k :: k in was && k !in FatedKeys(was, q) ==> FinalFate(was[k], q, d) == Untouched
  }

  lemma OwnedLayer(was: map<string, Node>, q: Request, d: Decision, layer: string)
    requires OnlyFated(was, q, d)
    ensures var p := OwnedIn(was, q, d, layer);
      (set k | k in FatedKeys(was, q) && p(k)) == OfLayer(was, Fated(was, q, d, Owned), layer)
  {
    hide FinalFate, FatedKeys;
  }

  lemma OwnedRest(was: map<string, Node>, q: Request, d: Decision)
    requires OnlyFated(was, q, d)
    ensures var p, owned := OwnedElsewhere(was, q, d), Fated(was, q, d, Owned);
      (set k | k in FatedKeys(was, q) && p(k)) == owned - OfLayer(was, owned, "passage") - OfLayer(was, owned, "fact")
  {
    hide FinalFate, FatedKeys;
  }

  lemma SharedKeys(was: map<string, Node>, q: Request, d: Decision)
    requires OnlyFated(was, q, d)
    ensures var p := SharedIn(was, q, d);
      (set k | k in FatedKeys(was, q) && p(k)) == Fated(was, q, d, Shared)
  {
    hide FinalFate, FatedKeys;
  }

  lemma SettledOntology(was: map<string, Node>, pruned: map<string, Node>, nodes: map<string, Node>,
                        ontology: OntologyTally, q: Request, d: Decision)
    requires OntologySettledAs(nodes, ontology, pruned, q, d)
    requires d.ontologyKeys <= was.Keys && d.ontologyKeys <= pruned.Keys && forall k :: k in d.ontologyKeys ==> pruned[k] == was[k]
    ensures ontology.pruned == |d.ontologyKeys * was.Keys - Unsupported(was, q, d)|
    ensures ontology.removed == |Unsupported(was, q, d)|
  {
    hide Support, Mapped, Collected, SupportedIn, UnsupportedIn, Unsupported;
    ListedSupported(was, pruned, q, d);
    ListedUnsupported(was, pruned, q, d);
  }

  lemma ListedSupported(was: map<string, Node>, pruned: map<string, Node>, q: Request, d: Decision)
    requires d.ontologyKeys <= was.Keys && d.ontologyKeys <= pruned.Keys && forall k :: k in d.ontologyKeys ==> pruned[k] == was[k]
    ensures var p := SupportedIn(pruned, q, d);
      (set k | k in d.ontologyKeys && p(k)) == d.ontologyKeys * was.Keys - Unsupported(was, q, d)
  {
    hide Support;
  }

  lemma ListedUnsupported(was: map<string, Node>, pruned: map<string, Node>, q: Request, d: Decision)
    requires d.ontologyKeys <= was.Keys && d.ontologyKeys <= pruned.Keys && forall k :: k in d.ontologyKeys ==> pruned[k] == was[k]
    ensures var p := UnsupportedIn(pruned, q, d); (set k | k in d.ontologyKeys && p(k)) == Unsupported(was, q, d)
  {
    hide Support;
  }

  lemma Finished(s: Store, t: Store, q: Request, orders: Orders, d: Decision, sc: SnapshotCounts, fates: FateTally,
                 ontology: OntologyTally,
                 report: Counts)
    requires d == Decide(s, q) && SnapshotCounted(sc, s, q, d)
    requires var g, rekey := GraphAfter(s.nodes, s.edges, q, d), Rekey(s.nodes, q, d, orders);
      && t == Store(g.nodes, g.edges, VectorsAfter(s.vectors, q, g.allRemoved, rekey),
                    s.values - DroppedVectors(s.vectors, q, g.allRemoved, rekey), PassagesAfter(s.passages, q),
                      SnapshotsAfter(s, q, d))
      && report == Counts(sc.passages, sc.facts, sc.shared, sc.affected, sc.adjusted,
           fates.passageNodes, fates.factNodes, |g.orphans|, fates.otherNodes, fates.sharedNodes, ontology.pruned, ontology.removed,
           Minus(|s.edges|, |g.edges|), |DroppedVectors(s.vectors, q, g.allRemoved, rekey)|,
           |RekeyedVectors(s.vectors, q, g.allRemoved, rekey)|, Minus(|s.passages|, |PassagesAfter(s.passages, q)|))
    requires NodesSettled(s.nodes, NodesAfter(s.nodes, q, d), fates, ontology, q, d)
    ensures t == Delete(s, q, orders) && report == Report(s, q, orders)
  {
    hide Decide, GraphAfter, Rekey, VectorsAfter, DroppedVectors, RekeyedVectors, PassagesAfter, SnapshotsAfter, Fated,
      OfLayer, Unsupported,
      NodesAfter, RemovedIds, SnapshotItems, SharedFacts, AffectedSchemas, AdjustedSchemas, FactsAfter, PassagesKept;
  }

  lemma ListedKey(order: seq<string>, keys: set<string>, i: nat)
    requires Listing(order, keys) && i < |order|
    ensures order[i] in keys
  {
  }

  lemma NothingMapped<V>(was: map<string, V>, f: (string, V) -> Option<V>)
    ensures Mapped(was, was, {}, f)
  {
  }

  lemma FateWalkStarts(nodes: map<string, Node>, base: map<string, string>, q: Request, d: Decision, order: seq<string>)
    ensures FateWalk(nodes, FateTally({}, base, 0, 0, 0, 0), nodes, base, q, d, order, 0)
  {
    hide FinalFate;
    assert Done(order, 0) == {};
  }

  lemma OntologyWalkStarts(nodes: map<string, Node>, base: map<string, string>, q: Request, d: Decision, order: seq<string>)
    ensures OntologyWalk(nodes, OntologyTally({}, base, 0, 0), nodes, base, q, d, order, 0)
  {
    hide Support;
    assert Done(order, 0) == {};
  }

  lemma EdgesKeptAre(was: map<string, Edge>, q: Request, removedIds: set<string>, removedFacts: set<string>)
    ensures var f := CutStep(q, removedIds, removedFacts);
      (map k | k in was && f(k, was[k]).Some? :: f(k, was[k]).value) == EdgesKept(was, q, removedIds, removedFacts)
  {
    hide Cut;
  }

  lemma EdgesApartAre(was: map<string, Edge>, q: Request, ids: set<string>)
    ensures var f := ApartStep(q, ids);
      (map k | k in was && f(k, was[k]).Some? :: f(k, was[k]).value) == EdgesApart(was, q, ids)
  {
    hide Touches;
  }

  lemma SupportedAre(found: set<string>, edges: map<string, Edge>, q: Request, candidates: set<string>)
    requires Collected(found, edges, edges.Keys, SupportEnds(q, candidates))
    ensures found == Supported(edges, q, candidates)
  {
    hide Supports, Ends;
  }

  lemma OrphanStep(q: Request, done: set<string>, x: string)
    requires x !in done
    ensures OrphanKeys(q, done + {x}) == OrphanKeys(q, done) + {StoreKey(q.corpusId, x)}
    ensures StoreKey(q.corpusId, x) !in OrphanKeys(q, done)
  {
    if StoreKey(q.corpusId, x) in OrphanKeys(q, done) {
      var y :| y in done && StoreKey(q.corpusId, y) == StoreKey(q.corpusId, x);
      StoreKeyInjective(q.corpusId, x, y);
    }
  }

  lemma NothingCounted(p: string -> bool)
    ensures Counted(0, {}, p)
  {
    assert (set k | k in {} && p(k)) == {};
  }

  ghost predicate VectorWalk(vectors: map<string, Vector>, dropped: set<string>, rekeyed: nat, was: map<string, Vector>,
                             q: Request, removedIds: set<string>, rekey: map<string, string>, done: set<string>) {
    && Mapped(was, vectors, done, VectorStep(q, removedIds, rekey))
    && Collected(dropped, was, done, VectorDrops(q, removedIds, rekey))
    && Counted(rekeyed, done, RekeyedIn(was, q, removedIds, rekey))
  }

  lemma VectorWalkStarts(was: map<string, Vector>, q: Request, removedIds: set<string>, rekey: map<string, string>)
    ensures VectorWalk(was, {}, 0, was, q, removedIds, rekey, {})
  {
    NothingCounted(RekeyedIn(was, q, removedIds, rekey));
  }

  lemma VectorWalkStep(vectors: map<string, Vector>, dropped: set<string>, rekeyed: nat, was: map<string, Vector>,
                       q: Request, removedIds: set<string>, rekey: map<string, string>, done: set<string>, k: string)
    requires VectorWalk(vectors, dropped, rekeyed, was, q, removedIds, rekey, done) && k in was && k !in done
    ensures k in vectors && vectors[k] == was[k]
    ensures var after := VectorAfter(was[k], q, removedIds, rekey);
      VectorWalk(Step(vectors, k, after), dropped + (if after.None? then {k} else {}),
                 rekeyed + (if IsRekeyed(was[k], q, removedIds, rekey) then 1 else 0), was, q, removedIds, rekey, done + {k})
  {
    hide Mapped, Collected, Counted, VectorAfter, IsRekeyed;
    MappedStep(was, vectors, done, VectorStep(q, removedIds, rekey), k);
    CollectedStep(dropped, was, done, VectorDrops(q, removedIds, rekey), k);
    CountedStep(rekeyed, done, RekeyedIn(was, q, removedIds, rekey), k);
  }

  lemma VectorsAre(vectors: map<string, Vector>, was: map<string, Vector>, dropped: set<string>, rekeyed: nat,
                   q: Request, removedIds: set<string>, rekey: map<string, string>)
    requires VectorWalk(vectors, dropped, rekeyed, was, q, removedIds, rekey, was.Keys)
    ensures vectors == VectorsAfter(was, q, removedIds, rekey)
    ensures dropped == DroppedVectors(was, q, removedIds, rekey)
    ensures rekeyed == |RekeyedVectors(was, q, removedIds, rekey)|
  {
    hide VectorAfter, IsRekeyed;
    MappedAll(was, vectors, was.Keys, VectorStep(q, removedIds, rekey));
    var p := RekeyedIn(was, q, removedIds, rekey);
    assert (set k | k in was.Keys && p(k)) == RekeyedVectors(was, q, removedIds, rekey);
  }

  lemma LexicalIs(was: map<string, Passage>, q: Request)
    ensures var f := LexicalStep(q);
      (map k | k in was && f(k, was[k]).Some? :: f(k, was[k]).value) == PassagesAfter(was, q)
  {
  }
}
