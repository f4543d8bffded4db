/**
  What deleting one document does to the five stores, pass by pass: JSON pruning,
  the decisions of the read-only scan, and the state after each pass. `orders`
  stands for the iteration order of the hash maps the passes walk.
 */
module DeleteSpec {
  import opened Wrappers
  import opened Text
  import opened StableSort
  import opened Json
  import opened Graph
  import opened MapPasses

  type Edge = GraphEdge<real>

  datatype Node = Node(nodeId: string, corpusId: string, layer: string, ref: Json, labelText: string)

  datatype Vector = Vector(id: string, corpusId: string, namespace: string, values: seq<real>, metadata: Json)

  datatype Passage = Passage(passageId: string, corpusId: string, documentId: string, text: string)

  datatype Store = Store(
    nodes: map<string, Node>,
    edges: map<string, Edge>,
    vectors: map<string, Vector>,
    values: map<string, seq<real>>,
    passages: map<string, Passage>,
    snapshots: map<string, Json>)

  datatype Request = Request(corpusId: string, documentId: string, updatedAt: string)

  // ---------- JSON pruning ----------

  /** A JSON array without the strings of `drop`; other members stay. */
  function Prune(items: seq<Json>, drop: set<string>): seq<Json> {
    Filter((v: Json) => !(v.Str? && v.s in drop), items)
  }

  /** `prune_string` and `prune_ids`: a field that is no array is left alone. */
  function PruneField(v: Json, name: string, drop: set<string>): Json {
    var items := GetArray(v, name);
    if items.None? then v else Obj(v.fields[name := Arr(Prune(items.value, drop))])
  }

  predicate Lists(v: Json, name: string, id: string) {
    var items := GetArray(v, name);
    items.Some? && Str(id) in items.value
  }

  predicate ListsAny(v: Json, name: string, ids: set<string>) {
    exists id :: id in ids && Lists(v, name, id)
  }

  /** `first_string`. */
  function FirstOf(items: seq<Json>): Option<string> {
    if items == [] then None else if items[0].Str? then Some(items[0].s) else FirstOf(items[1..])
  }

  function FirstString(v: Json, name: string): Option<string> {
    var items := GetArray(v, name);
    if items.None? then None else FirstOf(items.value)
  }

  /** `loses_all_passages`. */
  predicate LosesAll(v: Json, removed: set<string>) {
    var items := GetArray(v, "passageIds");
    items.Some? && items.value != []
    && forall i :: 0 <= i < |items.value| ==> items.value[i].Str? && items.value[i].s in removed
  }

  /** `stamp_existing_updated_at`. */
  function Stamp(v: Json, updatedAt: string): Json {
    if Get(v, "updatedAt").Some? then Obj(v.fields["updatedAt" := Str(updatedAt)]) else v
  }

  /** The document of a stored passage or of a vector. */
  function DocumentOf(metadata: Option<Json>): Option<string> {
    if metadata.None? then None else GetStr(metadata.value, "documentId")
  }

  /** `doc_ids_from_ref`. */
  function DocIds(ref: Json): seq<string> {
    var ids, own := GetArray(ref, "sourceDocumentIds"), DocumentOf(Get(ref, "metadata"));
    if ids.Some? then Strings(ids.value) else if own.Some? then [own.value] else []
  }

  /** An unsigned count that JSON represents exactly. */
  function SafeCount(v: Option<Json>): Option<nat> {
    if v.Some? && v.value.Num? && v.value.n.Int? && 0 <= v.value.n.i <= JSON_SAFE_INTEGER_MAX then Some(v.value.n.i) else None
  }

  /** `prune_schema_value`. */
  function PruneSchema(schema: Json, documentId: string, removedFacts: set<string>, updatedAt: string): Json {
    var pruned := PruneField(PruneField(schema, "sourceDocumentIds", {documentId}), "factIds", removedFacts);
    if !pruned.Obj? then pruned
    else
      var frequency, threshold := SafeCount(Get(pruned, "frequency")), SafeCount(Get(pruned, "stabilizationThreshold"));
      var next := if frequency.Some? then Max(frequency.value - 1, 0) else 0;
      var counted := if frequency.Some? then pruned.fields["frequency" := Num(Int(next))] else pruned.fields;
      var judged := if frequency.Some? && threshold.Some?
        then counted["state" := Str(if next >= threshold.value then "stable" else "pending")] else counted;
      Obj(judged["updatedAt" := Str(updatedAt)])
  }

  // ---------- step 1: the read-only scan ----------

  datatype Fate = Untouched | Shared | Owned

  /** What the document means to a node that is neither ontology nor entity. */
  function ScanFate(node: Node, q: Request): Fate {
    if node.corpusId != q.corpusId || node.layer == "ontology" || node.layer == "entity" then Untouched
    else
      var ids := GetArray(node.ref, "sourceDocumentIds");
      if ids.None? then if q.documentId in DocIds(node.ref) then Owned else Untouched
      else if Str(q.documentId) !in ids.value then Untouched
      else if exists i :: 0 <= i < |ids.value| && ids.value[i].Str? && ids.value[i].s != q.documentId then Shared
      else Owned
  }

  function IdOr(ref: Json, field: string, nodeId: string, prefix: string): string {
    var id := GetStr(ref, field);
    if id.Some? then id.value else if StartsWith(nodeId, prefix) then StripPrefix(nodeId, prefix) else nodeId
  }

  function SchemaIdOf(node: Node): Option<string> {
    var id := GetStr(node.ref, "schemaId");
    if id.Some? then id
    else if StartsWith(node.nodeId, "schema:") then Some(StripPrefix(node.nodeId, "schema:"))
    else None
  }

  predicate NamesDocument(node: Node, q: Request) {
    node.corpusId == q.corpusId && node.layer == "ontology" && q.documentId in DocIds(node.ref)
  }

  predicate OntologyVector(v: Vector) {
    v.namespace == "schema" || GetStr(v.metadata, "layer") == Some("ontology")
  }

  predicate NamesSchema(v: Vector, q: Request) {
    v.corpusId == q.corpusId && OntologyVector(v) && GetStr(v.metadata, "documentId") == Some(q.documentId)
    && StartsWith(v.id, "schema:")
  }

  /** The items of one snapshot section, or nothing when it is absent or no array. */
  function SnapshotItems(s: Store, corpusId: string, section: string): seq<Json> {
    if corpusId !in s.snapshots then []
    else
      var items := GetArray(s.snapshots[corpusId], section);
      if items.Some? then items.value else []
  }

  predicate OwnedPassage(passage: Json, q: Request) {
    DocumentOf(Get(passage, "metadata")) == Some(q.documentId)
  }

  predicate RemovedPassageNode(node: Node, q: Request) {
    ScanFate(node, q) == Owned && node.layer == "passage"
  }

  function OwnedPassageIds(items: seq<Json>, q: Request, k: nat): set<string>
    requires k <= |items|
  {
    if k == 0 then {}
    else
      OwnedPassageIds(items, q, k - 1)
      + if OwnedPassage(items[k - 1], q) then IdSet(GetStr(items[k - 1], "passageId")) else {}
  }

  function IdSet(id: Option<string>): set<string> {
    if id.Some? then {id.value} else {}
  }

  function RemovedPassages(s: Store, q: Request): set<string> {
    var items := SnapshotItems(s, q.corpusId, "passages");
    (set k | k in s.nodes && RemovedPassageNode(s.nodes[k], q) ::
       IdOr(s.nodes[k].ref, "passageId", s.nodes[k].nodeId, "passage:"))
    + OwnedPassageIds(items, q, |items|)
  }

  /** A shared fact that would lose its grounding is treated as owned. */
  function GroundedFate(node: Node, q: Request, removedPassages: set<string>): Fate {
    var fate := ScanFate(node, q);
    if fate == Shared && node.layer == "fact" && LosesAll(node.ref, removedPassages) then Owned else fate
  }

  function NodeFacts(nodes: map<string, Node>, q: Request, removedPassages: set<string>): set<string> {
    set k | k in nodes && nodes[k].layer == "fact" && GroundedFate(nodes[k], q, removedPassages) == Owned ::
      IdOr(nodes[k].ref, "factId", nodes[k].nodeId, "fact:")
  }

  // ---------- step 2: the snapshot ----------

  datatype FactFate = Kept | Pruned(fact: Json) | Dropped

  function FactAfter(fact: Json, q: Request, removedPassages: set<string>): FactFate {
    if !Lists(fact, "sourceDocumentIds", q.documentId) then Kept
    else
      var pruned := PruneField(fact, "sourceDocumentIds", {q.documentId});
      if FirstString(pruned, "sourceDocumentIds").Some? && !LosesAll(pruned, removedPassages)
      then Pruned(Stamp(PruneField(pruned, "passageIds", removedPassages), q.updatedAt))
      else Dropped
  }

  function FactsAfter(facts: seq<Json>, q: Request, removedPassages: set<string>, k: nat): seq<Json>
    requires k <= |facts|
  {
    if k == 0 then []
    else
      var before := FactsAfter(facts, q, removedPassages, k - 1);
      match FactAfter(facts[k - 1], q, removedPassages)
      case Kept => before + [facts[k - 1]]
      case Pruned(fact) => before + [fact]
      case Dropped => before
  }

  /** The pruned facts by id; a later one of the same id wins. */
  function FactPost(facts: seq<Json>, q: Request, removedPassages: set<string>, k: nat): map<string, Json>
    requires k <= |facts|
  {
    if k == 0 then map[]
    else
      var before, after := FactPost(facts, q, removedPassages, k - 1), FactAfter(facts[k - 1], q, removedPassages);
      if after.Pruned? && GetStr(after.fact, "factId").Some?
      then before[GetStr(after.fact, "factId").value := after.fact] else before
  }

  function DroppedFacts(facts: seq<Json>, q: Request, removedPassages: set<string>, k: nat): set<string>
    requires k <= |facts|
  {
    if k == 0 then {}
    else
      DroppedFacts(facts, q, removedPassages, k - 1)
      + if FactAfter(facts[k - 1], q, removedPassages).Dropped? then IdSet(GetStr(facts[k - 1], "factId")) else {}
  }

  /** The schemas of the facts that named the document. */
  function TouchedSchemas(facts: seq<Json>, q: Request, k: nat): set<string>
    requires k <= |facts|
  {
    if k == 0 then {}
    else
      TouchedSchemas(facts, q, k - 1)
      + if Lists(facts[k - 1], "sourceDocumentIds", q.documentId) then IdSet(GetStr(facts[k - 1], "schemaId")) else {}
  }

  predicate SchemaAffected(schema: Json, q: Request, removedFacts: set<string>, touched: set<string>) {
    GetStr(schema, "schemaId").Some?
    && (Lists(schema, "sourceDocumentIds", q.documentId)
        || ListsAny(schema, "factIds", removedFacts)
        || GetStr(schema, "schemaId").value in touched)
  }

  function SchemaAfter(schema: Json, q: Request, removedFacts: set<string>, touched: set<string>): Json {
    if SchemaAffected(schema, q, removedFacts, touched)
    then PruneSchema(schema, q.documentId, removedFacts, q.updatedAt) else schema
  }

  function SchemasAfter(schemas: seq<Json>, q: Request, removedFacts: set<string>, touched: set<string>): seq<Json> {
    seq(|schemas|, i requires 0 <= i < |schemas| => SchemaAfter(schemas[i], q, removedFacts, touched))
  }

  /** The schemas the graph mirrors after the delete, by id; a later one of the same id wins. */
  function SchemaPost(schemas: seq<Json>, q: Request, removedFacts: set<string>, touched: set<string>,
                      needed: set<string>, k: nat): map<string, Json>
    requires k <= |schemas|
  {
    if k == 0 then map[]
    else
      var before, id := SchemaPost(schemas, q, removedFacts, touched, needed, k - 1), GetStr(schemas[k - 1], "schemaId");
      if id.Some? && (SchemaAffected(schemas[k - 1], q, removedFacts, touched) || id.value in needed)
      then before[id.value := SchemaAfter(schemas[k - 1], q, removedFacts, touched)] else before
  }

  /** Everything the scan and the snapshot pass decide. */
  datatype Decision = Decision(
    removedPassages: set<string>,
    removedFacts: set<string>,
    touched: set<string>,
    needed: set<string>,
    factPost: map<string, Json>,
    schemaPost: map<string, Json>,
    ontologyKeys: set<string>)

  function Needed(s: Store, q: Request): set<string> {
    (set k | k in s.nodes && NamesDocument(s.nodes[k], q) && SchemaIdOf(s.nodes[k]).Some? :: SchemaIdOf(s.nodes[k]).value)
    + (set k | k in s.vectors && NamesSchema(s.vectors[k], q) :: StripPrefix(s.vectors[k].id, "schema:"))
  }

  function OntologyKeys(nodes: map<string, Node>, q: Request, schemaPost: map<string, Json>): set<string> {
    (set k | k in nodes && NamesDocument(nodes[k], q))
    + (set k | k in nodes && nodes[k].layer == "ontology" && MirrorsPost(k, q, schemaPost))
  }

  predicate MirrorsPost(key: string, q: Request, schemaPost: map<string, Json>) {
    exists id :: id in schemaPost && key == StoreKey(q.corpusId, "schema:" + id)
  }

  function Decide(s: Store, q: Request): Decision {
    var facts, schemas := SnapshotItems(s, q.corpusId, "facts"), SnapshotItems(s, q.corpusId, "schemas");
    var passages := RemovedPassages(s, q);
    var removed := NodeFacts(s.nodes, q, passages) + DroppedFacts(facts, q, passages, |facts|);
    var touched, needed := TouchedSchemas(facts, q, |facts|), Needed(s, q);
    var post := SchemaPost(schemas, q, removed, touched, needed, |schemas|);
    Decision(passages, removed, touched, needed, FactPost(facts, q, passages, |facts|), post, OntologyKeys(s.nodes, q, post))
  }

  function WithItems(v: Json, section: string, items: seq<Json>): Json {
    if GetArray(v, section).Some? then Obj(v.fields[section := Arr(items)]) else v
  }

  function PassagesKept(passages: seq<Json>, q: Request): seq<Json> {
    Filter((p: Json) => !OwnedPassage(p, q), passages)
  }

  function SnapshotAfter(snapshot: Json, q: Request, d: Decision, passages: seq<Json>, facts: seq<Json>, schemas: seq<Json>): Json {
    WithItems(
      WithItems(
        WithItems(snapshot, "passages", PassagesKept(passages, q)),
        "facts", FactsAfter(facts, q, d.removedPassages, |facts|)),
      "schemas", SchemasAfter(schemas, q, d.removedFacts, d.touched))
  }

  function SnapshotsAfter(s: Store, q: Request, d: Decision): map<string, Json> {
    if q.corpusId !in s.snapshots then s.snapshots
    else s.snapshots[q.corpusId := SnapshotAfter(s.snapshots[q.corpusId], q, d,
      SnapshotItems(s, q.corpusId, "passages"), SnapshotItems(s, q.corpusId, "facts"), SnapshotItems(s, q.corpusId, "schemas"))]
  }

  // ---------- step 3: the graph nodes ----------

  /** A shared fact node whose fact is gone follows it. */
  function FinalFate(node: Node, q: Request, d: Decision): Fate {
    var fate, id := GroundedFate(node, q, d.removedPassages), GetStr(node.ref, "factId");
    if fate == Shared && node.layer == "fact" && id.Some? && id.value in d.removedFacts then Owned else fate
  }

  /** The ref of a shared node afterwards: its pruned snapshot fact, or its own ref pruned in place. */
  function SharedRef(node: Node, q: Request, d: Decision): Json {
    var id := GetStr(node.ref, "factId");
    if node.layer == "fact" && id.Some? && id.value in d.factPost then d.factPost[id.value]
    else
      Stamp(PruneField(PruneField(node.ref, "sourceDocumentIds", {q.documentId}), "passageIds", d.removedPassages), q.updatedAt)
  }

  /** The ref of a listed ontology node afterwards, and the document that still supports it. */
  function OntologyRef(node: Node, q: Request, d: Decision): Json {
    var id := SchemaIdOf(node);
    if id.Some? && id.value in d.schemaPost then d.schemaPost[id.value]
    else Stamp(PruneField(PruneField(node.ref, "sourceDocumentIds", {q.documentId}), "factIds", d.removedFacts), q.updatedAt)
  }

  function Support(node: Node, q: Request, d: Decision): Option<string> {
    FirstString(OntologyRef(node, q, d), "sourceDocumentIds")
  }

  /** What becomes of the node stored under `key`: nothing when it is removed. */
  function NodeAfter(key: string, node: Node, q: Request, d: Decision): Option<Node> {
    if key in d.ontologyKeys then
      if Support(node, q, d).Some? then Some(node.(ref := OntologyRef(node, q, d))) else None
    else
      match FinalFate(node, q, d)
      case Untouched => Some(node)
      case Shared => Some(node.(ref := SharedRef(node, q, d)))
      case Owned => None
  }

  function NodesAfter(nodes: map<string, Node>, q: Request, d: Decision): map<string, Node> {
    map k | k in nodes && NodeAfter(k, nodes[k], q, d).Some? :: NodeAfter(k, nodes[k], q, d).value
  }

  function RemovedIds(nodes: map<string, Node>, q: Request, d: Decision): set<string> {
    set k | k in nodes && NodeAfter(k, nodes[k], q, d).None? :: nodes[k].nodeId
  }

  // ---------- the re-key map ----------

  /** The order in which the n-th walk over a hash map visits its keys. */
  type Orders = (nat, set<string>) -> seq<string>


  ghost predicate IsOrders(orders: Orders) {
    forall n, keys :: Listing(orders(n, keys), keys)
  }

  function RekeySchemas(schemaPost: map<string, Json>): map<string, string> {
    map x | x in (set id | id in schemaPost :: "schema:" + id)
      && FirstString(schemaPost[StripSchema(x)], "sourceDocumentIds").Some?
      :: FirstString(schemaPost[StripSchema(x)], "sourceDocumentIds").value
  }

  /** `x` without its `schema:` prefix. */
  function StripSchema(x: string): string {
    if StartsWith(x, "schema:") then StripPrefix(x, "schema:") else x
  }

  /** Shared nodes name the first document they still have. */
  function RekeyShared(rekey: map<string, string>, nodes: map<string, Node>, q: Request, d: Decision, order: seq<string>, k: nat)
    : map<string, string>
    requires k <= |order|
  {
    if k == 0 then rekey
    else
      var before, key := RekeyShared(rekey, nodes, q, d, order, k - 1), order[k - 1];
      if key in nodes && key !in d.ontologyKeys && FinalFate(nodes[key], q, d) == Shared
         && FirstString(SharedRef(nodes[key], q, d), "sourceDocumentIds").Some?
      then before[nodes[key].nodeId := FirstString(SharedRef(nodes[key], q, d), "sourceDocumentIds").value]
      else before
  }

  /** So do the listed ontology nodes; an unsupported one is taken out again. */
  function RekeyOntology(rekey: map<string, string>, nodes: map<string, Node>, q: Request, d: Decision, order: seq<string>, k: nat)
    : map<string, string>
    requires k <= |order|
  {
    if k == 0 then rekey
    else
      var before, key := RekeyOntology(rekey, nodes, q, d, order, k - 1), order[k - 1];
      if key !in nodes then before
      else if Support(nodes[key], q, d).Some? then before[nodes[key].nodeId := Support(nodes[key], q, d).value]
      else before - {nodes[key].nodeId}
  }

  function FatedKeys(nodes: map<string, Node>, q: Request): set<string> {
    set k | k in nodes && ScanFate(nodes[k], q) != Untouched
  }

  function Rekey(nodes: map<string, Node>, q: Request, d: Decision, orders: Orders): map<string, string> {
    var fated, listed := orders(0, FatedKeys(nodes, q)), orders(1, d.ontologyKeys);
    RekeyOntology(RekeyShared(RekeySchemas(d.schemaPost), nodes, q, d, fated, |fated|), nodes, q, d, listed, |listed|)
  }

  // ---------- steps 4 and 5: edges and orphans ----------

  function Strip(s: string, prefix: string): Option<string> {
    if StartsWith(s, prefix) then Some(StripPrefix(s, prefix)) else None
  }

  function StripFrom(s: Option<string>, prefix: string): Option<string> {
    if s.None? then None else Strip(s.value, prefix)
  }

  /** `cooccurrence_fact_id`. */
  function CooccurrenceFact(e: Edge): Option<string> {
    if e.relation != "entity_cooccurrence" then None
    else
      var head, tail := Strip(e.sourceNodeId, "entity:"), Strip(e.targetNodeId, "entity:");
      if head.None? || tail.None? then None
      else StripFrom(StripFrom(StripFrom(StripFrom(Strip(e.edgeId, "entity-cooccur:"), head.value), ":"), tail.value), ":")
  }

  predicate Touches(e: Edge, ids: set<string>) {
    e.sourceNodeId in ids || e.targetNodeId in ids
  }

  predicate Cut(e: Edge, q: Request, removedIds: set<string>, removedFacts: set<string>) {
    e.corpusId == q.corpusId
    && (Touches(e, removedIds) || (CooccurrenceFact(e).Some? && CooccurrenceFact(e).value in removedFacts))
  }

  function EdgesKept(edges: map<string, Edge>, q: Request, removedIds: set<string>, removedFacts: set<string>): map<string, Edge> {
    map k | k in edges && !Cut(edges[k], q, removedIds, removedFacts) :: edges[k]
  }

  function Ends(e: Edge): set<string> {
    {e.sourceNodeId, e.targetNodeId}
  }

  /** Entity endpoints of cut edges that are still entity nodes. */
  function Candidates(edges: map<string, Edge>, nodes: map<string, Node>, q: Request, removedIds: set<string>,
                      removedFacts: set<string>)
    : set<string>
  {
    set k, x | k in edges && x in Ends(edges[k]) && Cut(edges[k], q, removedIds, removedFacts)
      && x !in removedIds && IsEntity(nodes, q, x) :: x
  }

  predicate IsEntity(nodes: map<string, Node>, q: Request, x: string) {
    StartsWith(x, "entity:") && StoreKey(q.corpusId, x) in nodes && nodes[StoreKey(q.corpusId, x)].layer == "entity"
  }

  predicate Supports(e: Edge, q: Request) {
    e.corpusId == q.corpusId && (e.relation == "entity_mention" || e.relation == "entity_cooccurrence")
  }

  function Supported(edges: map<string, Edge>, q: Request, candidates: set<string>): set<string> {
    set k, x | k in edges && x in Ends(edges[k]) && Supports(edges[k], q) && x in candidates :: x
  }

  function OrphanKeys(q: Request, orphans: set<string>): set<string> {
    set x | x in orphans :: StoreKey(q.corpusId, x)
  }

  function EdgesApart(edges: map<string, Edge>, q: Request, ids: set<string>): map<string, Edge> {
    map k | k in edges && !(edges[k].corpusId == q.corpusId && Touches(edges[k], ids)) :: edges[k]
  }

  // ---------- steps 6 and 7: vectors and lexical passages ----------

  function VectorAfter(v: Vector, q: Request, removedIds: set<string>, rekey: map<string, string>): Option<Vector> {
    if v.corpusId != q.corpusId then Some(v)
    else if v.id in removedIds then None
    else if GetStr(v.metadata, "documentId") != Some(q.documentId) then Some(v)
    else if v.id in rekey then Some(v.(metadata := Obj(v.metadata.fields["documentId" := Str(rekey[v.id])])))
    else None
  }

  function VectorsAfter(vectors: map<string, Vector>, q: Request, removedIds: set<string>,
                        rekey: map<string, string>): map<string, Vector> {
    map k | k in vectors && VectorAfter(vectors[k], q, removedIds, rekey).Some? ::
      VectorAfter(vectors[k], q, removedIds, rekey).value
  }

  function DroppedVectors(vectors: map<string, Vector>, q: Request, removedIds: set<string>,
                          rekey: map<string, string>): set<string> {
    set k | k in vectors && VectorAfter(vectors[k], q, removedIds, rekey).None?
  }

  function PassagesAfter(passages: map<string, Passage>, q: Request): map<string, Passage> {
    map k | k in passages && !(passages[k].corpusId == q.corpusId && passages[k].documentId == q.documentId) :: passages[k]
  }

  // ---------- the whole delete ----------

  /** The graph part of a delete, step by step. */
  datatype GraphPart = GraphPart(
    pruned: map<string, Node>,      // after step 3
    removedIds: set<string>,        // after step 3
    kept: map<string, Edge>,        // after step 4
    candidates: set<string>,
    orphans: set<string>,
    nodes: map<string, Node>,       // after step 5
    edges: map<string, Edge>,       // after step 5
    allRemoved: set<string>)        // after step 5

  function GraphAfter(nodes: map<string, Node>, edges: map<string, Edge>, q: Request, d: Decision): GraphPart {
    var pruned, removedIds := NodesAfter(nodes, q, d), RemovedIds(nodes, q, d);
    var kept := EdgesKept(edges, q, removedIds, d.removedFacts);
    var candidates := Candidates(edges, pruned, q, removedIds, d.removedFacts);
    var orphans := candidates - Supported(kept, q, candidates);
    var allRemoved := removedIds + orphans;
    GraphPart(pruned, removedIds, kept, candidates, orphans, pruned - OrphanKeys(q, orphans),
      if candidates == {} then kept else EdgesApart(kept, q, allRemoved), allRemoved)
  }

  function Delete(s: Store, q: Request, orders: Orders): Store {
    var d := Decide(s, q);
    var g := GraphAfter(s.nodes, s.edges, q, d);
    var rekey := Rekey(s.nodes, q, d, orders);
    Store(g.nodes, g.edges,
      VectorsAfter(s.vectors, q, g.allRemoved, rekey),
      s.values - DroppedVectors(s.vectors, q, g.allRemoved, rekey),
      PassagesAfter(s.passages, q),
      SnapshotsAfter(s, q, d))
  }

  // ---------- the report ----------

  datatype Counts = Counts(
    removedPassages: nat,
    removedFacts: nat,
    prunedSharedFacts: nat,
    prunedSchemas: nat,
    schemaFrequencyAdjusted: nat,
    removedPassageNodes: nat,
    removedFactNodes: nat,
    removedEntityNodes: nat,
    removedOtherNodes: nat,
    prunedSharedNodes: nat,
    prunedOntologyNodes: nat,
    removedOntologyNodes: nat,
    removedEdges: nat,
    removedVectors: nat,
    rekeyedVectors: nat,
    removedLexicalPassages: nat)

  function Total(c: Counts): nat {
    c.removedPassages + c.removedFacts + c.prunedSharedFacts + c.prunedSchemas + c.schemaFrequencyAdjusted
    + c.removedPassageNodes + c.removedFactNodes + c.removedEntityNodes + c.removedOtherNodes
    + c.prunedSharedNodes + c.prunedOntologyNodes + c.removedOntologyNodes
    + c.removedEdges + c.removedVectors + c.rekeyedVectors + c.removedLexicalPassages
  }

  function SharedFacts(facts: seq<Json>, q: Request, removedPassages: set<string>, k: nat): nat
    requires k <= |facts|
  {
    if k == 0 then 0
    else SharedFacts(facts, q, removedPassages, k - 1) + if FactAfter(facts[k - 1], q, removedPassages).Pruned? then 1 else 0
  }

  function AffectedSchemas(schemas: seq<Json>, q: Request, d: Decision, k: nat): nat
    requires k <= |schemas|
  {
    if k == 0 then 0
    else AffectedSchemas(schemas, q, d, k - 1) + if SchemaAffected(schemas[k - 1], q, d.removedFacts, d.touched) then 1 else 0
  }

  predicate Adjusted(schema: Json, q: Request, d: Decision) {
    SchemaAffected(schema, q, d.removedFacts, d.touched) && SafeCount(Get(schema, "frequency")).Some?
  }

  function AdjustedSchemas(schemas: seq<Json>, q: Request, d: Decision, k: nat): nat
    requires k <= |schemas|
  {
    if k == 0 then 0
    else AdjustedSchemas(schemas, q, d, k - 1) + if Adjusted(schemas[k - 1], q, d) then 1 else 0
  }

  /** Keys of the nodes that meet a fate, by layer. */
  function Fated(nodes: map<string, Node>, q: Request, d: Decision, fate: Fate): set<string> {
    set k | k in nodes && k !in d.ontologyKeys && FinalFate(nodes[k], q, d) == fate
  }

  function OfLayer(nodes: map<string, Node>, keys: set<string>, layer: string): set<string> {
    set k | k in keys && k in nodes && nodes[k].layer == layer
  }

  function Unsupported(nodes: map<string, Node>, q: Request, d: Decision): set<string> {
    set k | k in d.ontologyKeys && k in nodes && Support(nodes[k], q, d).None?
  }

  function RekeyedVectors(vectors: map<string, Vector>, q: Request, removedIds: set<string>,
                          rekey: map<string, string>): set<string> {
    set k | k in vectors && IsRekeyed(vectors[k], q, removedIds, rekey)
  }

  predicate IsRekeyed(v: Vector, q: Request, removedIds: set<string>, rekey: map<string, string>) {
    v.corpusId == q.corpusId && v.id !in removedIds && GetStr(v.metadata, "documentId") == Some(q.documentId) && v.id in rekey
  }

  function Report(s: Store, q: Request, orders: Orders): Counts {
    var d := Decide(s, q);
    var g := GraphAfter(s.nodes, s.edges, q, d);
    var rekey, t := Rekey(s.nodes, q, d, orders), Delete(s, q, orders);
    var passages, facts := SnapshotItems(s, q.corpusId, "passages"), SnapshotItems(s, q.corpusId, "facts");
    var schemas, owned := SnapshotItems(s, q.corpusId, "schemas"), Fated(s.nodes, q, d, Owned);
    var passageNodes, factNodes := OfLayer(s.nodes, owned, "passage"), OfLayer(s.nodes, owned, "fact");
    var listed, unsupported := d.ontologyKeys * s.nodes.Keys, Unsupported(s.nodes, q, d);
    Counts(
      Minus(|passages|, |PassagesKept(passages, q)|),
      Minus(|facts|, |FactsAfter(facts, q, d.removedPassages, |facts|)|),
      SharedFacts(facts, q, d.removedPassages, |facts|),
      AffectedSchemas(schemas, q, d, |schemas|),
      AdjustedSchemas(schemas, q, d, |schemas|),
      |passageNodes|,
      |factNodes|,
      |g.orphans|,
      |owned - passageNodes - factNodes|,
      |Fated(s.nodes, q, d, Shared)|,
      |listed - unsupported|,
      |unsupported|,
      Minus(|s.edges|, |t.edges|),
      |DroppedVectors(s.vectors, q, g.allRemoved, rekey)|,
      |RekeyedVectors(s.vectors, q, g.allRemoved, rekey)|,
      Minus(|s.passages|, |t.passages|))
  }

  /** `saturating_sub`. */
  function Minus(a: nat, b: nat): nat {
    if a < b then 0 else a - b
  }
}
