/**
  What deleting a document means, in terms of the stored JSON alone: which
  passages, facts and schemas it reaches, and what pruning leaves of a value.
 */
module DeleteMeaning {
  import opened Wrappers
  import opened Text
  import opened StableSort
  import opened Json
  import opened DeleteSpec
  import opened DeleteJson

  // ---------- reading stored JSON ----------

  predicate Says(v: Json, name: string, s: string) {
    v.Obj? && name in v.fields && v.fields[name] == Str(s)
  }

  /** The field holds no string. */
  predicate Silent(v: Json, name: string) {
    !(v.Obj? && name in v.fields && v.fields[name].Str?)
  }

  predicate HasArray(v: Json, name: string) {
    v.Obj? && name in v.fields && v.fields[name].Arr?
  }

  predicate Cites(v: Json, name: string, id: string) {
    HasArray(v, name) && Str(id) in v.fields[name].items
  }

  /** The first string of the field's array. */
  predicate CitesFirst(v: Json, name: string, id: string) {
    HasArray(v, name)
    && exists i :: 0 <= i < |v.fields[name].items| && v.fields[name].items[i] == Str(id)
         && forall j :: 0 <= j < i ==> !v.fields[name].items[j].Str?
  }

  predicate FromDocument(v: Json, documentId: string) {
    v.Obj? && "metadata" in v.fields && Says(v.fields["metadata"], "documentId", documentId)
  }

  /** A value names the documents of its list, or without a list the one of its metadata. */
  predicate Names(v: Json, documentId: string) {
    if HasArray(v, "sourceDocumentIds") then Cites(v, "sourceDocumentIds", documentId) else FromDocument(v, documentId)
  }

  ghost predicate NamesOther(v: Json, documentId: string) {
    exists id :: id != documentId && Cites(v, "sourceDocumentIds", id)
  }

  /** The value has passages, and every one of them is gone. */
  predicate Ungrounded(v: Json, gone: set<string>) {
    HasArray(v, "passageIds") && v.fields["passageIds"].items != []
    && forall p :: p in v.fields["passageIds"].items ==> p.Str? && p.s in gone
  }

  lemma SaysIsRead(v: Json, name: string, s: string)
    ensures GetStr(v, name) == Some(s) <==> Says(v, name, s)
    ensures GetStr(v, name) == None <==> Silent(v, name)
  {
  }

  lemma CitesIsListed(v: Json, name: string, id: string)
    ensures Lists(v, name, id) <==> Cites(v, name, id)
    ensures GetArray(v, name) == if HasArray(v, name) then Some(v.fields[name].items) else None
  {
  }

  lemma NamesIsRead(v: Json, documentId: string)
    ensures documentId in DocIds(v) <==> Names(v, documentId)
  {
    if HasArray(v, "sourceDocumentIds") {
      DocIdsListed(v, documentId);
    }
  }

  lemma {:induction false} FirstIsFirst(items: seq<Json>, id: string)
    ensures FirstOf(items) == Some(id) <==>
      exists i :: 0 <= i < |items| && items[i] == Str(id) && forall j :: 0 <= j < i ==> !items[j].Str?
  {
    if items != [] && !items[0].Str? {
      FirstIsFirst(items[1..], id);
      if i :| 0 <= i < |items[1..]| && items[1..][i] == Str(id) && forall j :: 0 <= j < i ==> !items[1..][j].Str? {
        assert items[i + 1] == Str(id);
        assert forall j :: 0 <= j < i + 1 ==> j == 0 || items[j] == items[1..][j - 1];
      }
      if i :| 0 <= i < |items| && items[i] == Str(id) && forall j :: 0 <= j < i ==> !items[j].Str? {
        assert items[1..][i - 1] == Str(id);
      }
    } else if items != [] {
      assert items[0].Str?;
    }
  }

  lemma FirstIsCited(v: Json, name: string, id: string)
    ensures FirstString(v, name) == Some(id) <==> CitesFirst(v, name, id)
  {
    if HasArray(v, name) {
      FirstIsFirst(v.fields[name].items, id);
    }
  }

  lemma SomeIsCited(v: Json, name: string)
    ensures FirstString(v, name).Some? <==> exists id :: Cites(v, name, id)
  {
    FirstStringListed(v, name);
    if FirstString(v, name).Some? {
      CitesIsListed(v, name, FirstString(v, name).value);
    } else {
      forall id ensures !Cites(v, name, id) {
        CitesIsListed(v, name, id);
      }
    }
  }

  lemma UngroundedIsRead(v: Json, gone: set<string>)
    ensures LosesAll(v, gone) <==> Ungrounded(v, gone)
  {
    if HasArray(v, "passageIds") {
      var items := v.fields["passageIds"].items;
      assert (forall i :: 0 <= i < |items| ==> items[i].Str? && items[i].s in gone)
        <==> forall p :: p in items ==> p.Str? && p.s in gone;
    }
  }

  // ---------- pruning ----------

  /** Pruning reads one member after the other: a string of `drop` goes, everything else stays in its place. */
  lemma PruneMeans(a: seq<Json>, b: seq<Json>, v: Json, drop: set<string>)
    ensures Prune([], drop) == []
    ensures Prune(a + b, drop) == Prune(a, drop) + Prune(b, drop)
    ensures Prune([v], drop) == if v.Str? && v.s in drop then [] else [v]
  {
    FilterConcat((w: Json) => !(w.Str? && w.s in drop), a, b);
    assert [v][1..] == [];
  }

  /**
    Two lists of an object are pruned, of the document and of what `drop` holds,
    and an update time it has is renewed. Nothing else changes.
   */
  predicate Cleared(before: Json, after: Json, q: Request, name: string, drop: set<string>) {
    if !before.Obj? then after == before
    else
      && after.Obj? && after.fields.Keys == before.fields.Keys
      && forall f :: f in before.fields ==> FieldCleared(before.fields[f], after.fields[f], q, f, name, drop)
  }

  predicate FieldCleared(before: Json, after: Json, q: Request, field: string, name: string, drop: set<string>) {
    if field == "sourceDocumentIds" && before.Arr? then after == Arr(Prune(before.items, {q.documentId}))
    else if field == name && before.Arr? then after == Arr(Prune(before.items, drop))
    else if field == "updatedAt" then after == Str(q.updatedAt)
    else after == before
  }

  lemma ClearedInPlace(v: Json, q: Request, name: string, drop: set<string>)
    requires name != "sourceDocumentIds" && name != "updatedAt"
    ensures Cleared(v, Stamp(PruneField(PruneField(v, "sourceDocumentIds", {q.documentId}), name, drop), q.updatedAt),
      q, name, drop)
  {
  }

  // ---------- facts ----------

  /** A fact that lists the document goes with it unless another document supports it and a passage of it remains. */
  ghost predicate FactGoes(fact: Json, q: Request, gone: set<string>) {
    Cites(fact, "sourceDocumentIds", q.documentId) && (!NamesOther(fact, q.documentId) || Ungrounded(fact, gone))
  }

  /** What a fact that does not go looks like afterwards. */
  predicate FactBecomes(fact: Json, after: Json, q: Request, gone: set<string>) {
    if Cites(fact, "sourceDocumentIds", q.documentId) then Cleared(fact, after, q, "passageIds", gone) else after == fact
  }

  lemma PrunedNamesOther(fact: Json, q: Request)
    ensures FirstString(PruneField(fact, "sourceDocumentIds", {q.documentId}), "sourceDocumentIds").Some?
      <==> NamesOther(fact, q.documentId)
  {
    var pruned := PruneField(fact, "sourceDocumentIds", {q.documentId});
    FirstStringListed(pruned, "sourceDocumentIds");
    if FirstString(pruned, "sourceDocumentIds").Some? {
      var id := FirstString(pruned, "sourceDocumentIds").value;
      PruneFieldLists(fact, "sourceDocumentIds", {q.documentId}, id);
      CitesIsListed(fact, "sourceDocumentIds", id);
      assert id != q.documentId && Cites(fact, "sourceDocumentIds", id);
    } else if NamesOther(fact, q.documentId) {
      var id :| id != q.documentId && Cites(fact, "sourceDocumentIds", id);
      PruneFieldLists(fact, "sourceDocumentIds", {q.documentId}, id);
      CitesIsListed(fact, "sourceDocumentIds", id);
      assert false;
    }
  }

  lemma FactMeans(fact: Json, q: Request, gone: set<string>)
    ensures FactAfter(fact, q, gone).Dropped? <==> FactGoes(fact, q, gone)
    ensures FactAfter(fact, q, gone).Kept? <==> !Cites(fact, "sourceDocumentIds", q.documentId)
    ensures FactAfter(fact, q, gone).Pruned? ==> FactBecomes(fact, FactAfter(fact, q, gone).fact, q, gone)
  {
    hide Prune, NamesOther, LosesAll, Ungrounded;
    var pruned := PruneField(fact, "sourceDocumentIds", {q.documentId});
    CitesIsListed(fact, "sourceDocumentIds", q.documentId);
    PrunedNamesOther(fact, q);
    UngroundedIsRead(fact, gone);
    SamePassages(fact, pruned, gone, q);
    ClearedInPlace(fact, q, "passageIds", gone);
  }

  lemma SamePassages(fact: Json, pruned: Json, gone: set<string>, q: Request)
    requires pruned == PruneField(fact, "sourceDocumentIds", {q.documentId})
    ensures LosesAll(pruned, gone) == LosesAll(fact, gone)
  {
  }

  /** The fact list afterwards, read from the back: gone facts are skipped, the others follow in their order. */
  ghost predicate FactsFollow(before: seq<Json>, after: seq<Json>, q: Request, gone: set<string>) {
    if before == [] then after == []
    else if FactGoes(before[|before| - 1], q, gone) then FactsFollow(before[..|before| - 1], after, q, gone)
    else
      && after != [] && FactBecomes(before[|before| - 1], after[|after| - 1], q, gone)
      && FactsFollow(before[..|before| - 1], after[..|after| - 1], q, gone)
  }

  lemma {:induction false} FactsMean(facts: seq<Json>, q: Request, gone: set<string>, k: nat)
    requires k <= |facts|
    ensures FactsFollow(facts[..k], FactsAfter(facts, q, gone, k), q, gone)
  {
    hide FactAfter, FactGoes, FactBecomes;
    if k > 0 {
      FactsMean(facts, q, gone, k - 1);
      FactMeans(facts[k - 1], q, gone);
      UnchangedFact(facts[k - 1], q, gone);
      var before := FactsAfter(facts, q, gone, k - 1);
      var after := FactsAfter(facts, q, gone, k);
      assert facts[..k][..k - 1] == facts[..k - 1];
      if !FactAfter(facts[k - 1], q, gone).Dropped? {
        assert after[..|after| - 1] == before;
      }
    }
  }

  lemma UnchangedFact(fact: Json, q: Request, gone: set<string>)
    ensures !Cites(fact, "sourceDocumentIds", q.documentId) ==> FactBecomes(fact, fact, q, gone)
  {
  }

  // ---------- schemas ----------

  /** The schema cites the document or a removed fact, or a fact that cited the document belonged to it. */
  predicate SchemaReached(schema: Json, q: Request, removedFacts: set<string>, touched: set<string>) {
    !Silent(schema, "schemaId")
    && (Cites(schema, "sourceDocumentIds", q.documentId)
        || (exists f :: f in removedFacts && Cites(schema, "factIds", f))
        || exists id :: id in touched && Says(schema, "schemaId", id))
  }

  /** A whole number from zero to the largest one JSON keeps exactly. */
  predicate Counted(v: Json, name: string) {
    v.Obj? && name in v.fields && v.fields[name].Num? && v.fields[name].n.Int? && 0 <= v.fields[name].n.i <= 9_007_199_254_740_991
  }

  /**
    A reached schema loses the document and the removed facts, its frequency goes
    down by one but not below zero, its state follows frequency and threshold when
    it has both, and it gets the update time.
   */
  predicate SchemaBecomes(schema: Json, after: Json, q: Request, removedFacts: set<string>) {
    && schema.Obj? && after.Obj?
    && after.fields.Keys == schema.fields.Keys + {"updatedAt"} + (if Judged(schema) then {"state"} else {})
    && forall f :: f in after.fields ==> SchemaFieldBecomes(schema, after.fields[f], f, q, removedFacts)
  }

  predicate Judged(schema: Json) {
    Counted(schema, "frequency") && Counted(schema, "stabilizationThreshold")
  }

  function Lowered(n: int): int {
    if n <= 0 then 0 else n - 1
  }

  predicate SchemaFieldBecomes(schema: Json, after: Json, field: string, q: Request, removedFacts: set<string>)
    requires schema.Obj?
  {
    if field == "updatedAt" then after == Str(q.updatedAt)
    else if field == "state" && Judged(schema) then
      var threshold, frequency := schema.fields["stabilizationThreshold"].n.i, Lowered(schema.fields["frequency"].n.i);
      after == Str(if threshold <= frequency then "stable" else "pending")
    else if field !in schema.fields then false
    else if field == "frequency" && Counted(schema, field) then after == Num(Int(Lowered(schema.fields[field].n.i)))
    else if field == "sourceDocumentIds" && schema.fields[field].Arr?
    then after == Arr(Prune(schema.fields[field].items, {q.documentId}))
    else if field == "factIds" && schema.fields[field].Arr? then after == Arr(Prune(schema.fields[field].items, removedFacts))
    else after == schema.fields[field]
  }

  lemma ReachedIsAffected(schema: Json, q: Request, removedFacts: set<string>, touched: set<string>)
    ensures SchemaAffected(schema, q, removedFacts, touched) <==> SchemaReached(schema, q, removedFacts, touched)
  {
    CitesIsListed(schema, "sourceDocumentIds", q.documentId);
    assert ListsAny(schema, "factIds", removedFacts) <==> exists f :: f in removedFacts && Cites(schema, "factIds", f) by {
      forall f ensures Lists(schema, "factIds", f) <==> Cites(schema, "factIds", f) {
        CitesIsListed(schema, "factIds", f);
      }
    }
    hide Lists, Cites, ListsAny;
    assert (exists id :: id in touched && Says(schema, "schemaId", id))
      <==> !Silent(schema, "schemaId") && schema.fields["schemaId"].s in touched;
  }

  lemma CountedIsSafe(v: Json, name: string)
    ensures SafeCount(Get(v, name)) == if Counted(v, name) then Some(v.fields[name].n.i) else None
  {
  }

  lemma ListsPruned(schema: Json, q: Request, removedFacts: set<string>, field: string)
    requires schema.Obj?
    ensures var pruned := PruneField(PruneField(schema, "sourceDocumentIds", {q.documentId}), "factIds", removedFacts);
      && pruned.Obj? && pruned.fields.Keys == schema.fields.Keys
      && (field in schema.fields ==>
            pruned.fields[field] ==
              if field == "sourceDocumentIds" && schema.fields[field].Arr?
              then Arr(Prune(schema.fields[field].items, {q.documentId}))
              else if field == "factIds" && schema.fields[field].Arr? then Arr(Prune(schema.fields[field].items, removedFacts))
              else schema.fields[field])
  {
    hide Prune;
  }

  lemma SchemaMeans(schema: Json, q: Request, removedFacts: set<string>)
    requires schema.Obj?
    ensures SchemaBecomes(schema, PruneSchema(schema, q.documentId, removedFacts, q.updatedAt), q, removedFacts)
  {
    hide Prune, SafeCount, PruneField;
    var pruned := PruneField(PruneField(schema, "sourceDocumentIds", {q.documentId}), "factIds", removedFacts);
    ListsPruned(schema, q, removedFacts, "frequency");
    ListsPruned(schema, q, removedFacts, "stabilizationThreshold");
    CountedIsSafe(pruned, "frequency");
    CountedIsSafe(pruned, "stabilizationThreshold");
    var after := PruneSchema(schema, q.documentId, removedFacts, q.updatedAt);
    assert Counted(pruned, "frequency") == Counted(schema, "frequency");
    assert Counted(pruned, "stabilizationThreshold") == Counted(schema, "stabilizationThreshold");
    forall f | f in after.fields ensures SchemaFieldBecomes(schema, after.fields[f], f, q, removedFacts) {
      ListsPruned(schema, q, removedFacts, f);
    }
  }

  /** The schema list afterwards: reached schemas become what they become, all others stay, in their places. */
  predicate SchemasFollow(before: seq<Json>, after: seq<Json>, q: Request, removedFacts: set<string>, touched: set<string>) {
    && |after| == |before|
    && forall i :: 0 <= i < |before| ==> SchemaNow(before[i], after[i], q, removedFacts, touched)
  }

  predicate SchemaNow(schema: Json, after: Json, q: Request, removedFacts: set<string>, touched: set<string>) {
    if SchemaReached(schema, q, removedFacts, touched) then SchemaBecomes(schema, after, q, removedFacts) else after == schema
  }

  lemma SchemaNowMeans(schema: Json, q: Request, removedFacts: set<string>, touched: set<string>)
    ensures SchemaNow(schema, SchemaAfter(schema, q, removedFacts, touched), q, removedFacts, touched)
  {
    hide SchemaAffected, SchemaBecomes, PruneSchema;
    ReachedIsAffected(schema, q, removedFacts, touched);
    if schema.Obj? {
      SchemaMeans(schema, q, removedFacts);
    }
  }

  lemma SchemasMean(schemas: seq<Json>, q: Request, removedFacts: set<string>, touched: set<string>)
    ensures SchemasFollow(schemas, SchemasAfter(schemas, q, removedFacts, touched), q, removedFacts, touched)
  {
    hide SchemaAfter, SchemaNow;
    forall i | 0 <= i < |schemas|
      ensures SchemaNow(schemas[i], SchemaAfter(schemas[i], q, removedFacts, touched), q, removedFacts, touched)
    {
      SchemaNowMeans(schemas[i], q, removedFacts, touched);
    }
  }

  // ---------- what the delete reaches ----------

  predicate IsSection(s: Store, corpusId: string, section: string, items: seq<Json>) {
    if corpusId in s.snapshots && HasArray(s.snapshots[corpusId], section)
    then s.snapshots[corpusId].fields[section] == Arr(items) else items == []
  }

  lemma SectionIsRead(s: Store, corpusId: string, section: string)
    ensures IsSection(s, corpusId, section, SnapshotItems(s, corpusId, section))
  {
  }

  /** A node that the document alone supports. */
  ghost predicate Exclusive(ref: Json, documentId: string) {
    Names(ref, documentId) && !NamesOther(ref, documentId)
  }

  predicate InLayer(node: Node, q: Request, layer: string) {
    node.corpusId == q.corpusId && node.layer == layer
  }

  /** The id a node stands for: its ref's, else the rest of its node id after the prefix, else the node id. */
  predicate StandsFor(node: Node, field: string, prefix: string, id: string) {
    if Silent(node.ref, field)
    then node.nodeId == prefix + id || (node.nodeId == id && !(prefix <= node.nodeId))
    else Says(node.ref, field, id)
  }

  ghost predicate GonePassage(s: Store, q: Request, passages: seq<Json>, id: string) {
    || (exists k :: k in s.nodes && InLayer(s.nodes[k], q, "passage") && Exclusive(s.nodes[k].ref, q.documentId)
          && StandsFor(s.nodes[k], "passageId", "passage:", id))
    || exists p :: p in passages && FromDocument(p, q.documentId) && Says(p, "passageId", id)
  }

  ghost predicate GoneFact(s: Store, q: Request, facts: seq<Json>, gone: set<string>, id: string) {
    || (exists k :: k in s.nodes && InLayer(s.nodes[k], q, "fact") && Names(s.nodes[k].ref, q.documentId)
          && (!NamesOther(s.nodes[k].ref, q.documentId) || Ungrounded(s.nodes[k].ref, gone))
          && StandsFor(s.nodes[k], "factId", "fact:", id))
    || exists f :: f in facts && FactGoes(f, q, gone) && Says(f, "factId", id)
  }

  /** The id of the schema that an ontology node stands for. */
  predicate StandsForSchema(node: Node, id: string) {
    if Silent(node.ref, "schemaId") then node.nodeId == "schema:" + id else Says(node.ref, "schemaId", id)
  }

  ghost predicate NeededSchema(s: Store, q: Request, id: string) {
    || (exists k :: k in s.nodes && InLayer(s.nodes[k], q, "ontology") && Names(s.nodes[k].ref, q.documentId)
          && StandsForSchema(s.nodes[k], id))
    || exists k :: k in s.vectors && s.vectors[k].corpusId == q.corpusId && s.vectors[k].id == "schema:" + id
         && (s.vectors[k].namespace == "schema" || Says(s.vectors[k].metadata, "layer", "ontology"))
         && Says(s.vectors[k].metadata, "documentId", q.documentId)
  }

  /** Where the last of the first `k` facts stands that has the id and stays though it cited the document. */
  ghost predicate LastCiting(facts: seq<Json>, k: nat, q: Request, gone: set<string>, id: string, i: nat)
    requires k <= |facts|
  {
    i < k && StaysCiting(facts[i], q, gone, id) && forall j :: i < j < k ==> !StaysCiting(facts[j], q, gone, id)
  }

  ghost predicate StaysCiting(fact: Json, q: Request, gone: set<string>, id: string) {
    Says(fact, "factId", id) && Cites(fact, "sourceDocumentIds", q.documentId) && !FactGoes(fact, q, gone)
  }

  /** Where the last of the first `k` schemas stands that has the id and is reached or needed. */
  predicate LastConcerned(schemas: seq<Json>, k: nat, q: Request, d: Decision, id: string, i: nat)
    requires k <= |schemas|
  {
    i < k && Concerned(schemas[i], q, d, id) && forall j :: i < j < k ==> !Concerned(schemas[j], q, d, id)
  }

  predicate Concerned(schema: Json, q: Request, d: Decision, id: string) {
    Says(schema, "schemaId", id) && (SchemaReached(schema, q, d.removedFacts, d.touched) || id in d.needed)
  }

  ghost predicate FactPostMeans(facts: seq<Json>, k: nat, q: Request, gone: set<string>, post: map<string, Json>)
    requires k <= |facts|
  {
    && (forall id, i: nat :: LastCiting(facts, k, q, gone, id, i) ==> id in post && FactBecomes(facts[i], post[id], q, gone))
    && (forall id :: id in post ==> exists i: nat :: LastCiting(facts, k, q, gone, id, i))
  }

  ghost predicate SchemaPostMeans(schemas: seq<Json>, k: nat, q: Request, d: Decision, post: map<string, Json>)
    requires k <= |schemas|
  {
    && (forall id, i: nat :: LastConcerned(schemas, k, q, d, id, i) ==>
          id in post && SchemaNow(schemas[i], post[id], q, d.removedFacts, d.touched))
    && (forall id :: id in post ==> exists i: nat :: LastConcerned(schemas, k, q, d, id, i))
  }

  /** Everything the scan decides, read off the store. */
  ghost predicate DecisionMeans(s: Store, q: Request, d: Decision) {
    var passages, facts := SnapshotItems(s, q.corpusId, "passages"), SnapshotItems(s, q.corpusId, "facts");
    var schemas := SnapshotItems(s, q.corpusId, "schemas");
    && (forall id :: id in d.removedPassages <==> GonePassage(s, q, passages, id))
    && (forall id :: id in d.removedFacts <==> GoneFact(s, q, facts, d.removedPassages, id))
    && (forall id :: id in d.touched <==>
          exists f :: f in facts && Cites(f, "sourceDocumentIds", q.documentId) && Says(f, "schemaId", id))
    && (forall id :: id in d.needed <==> NeededSchema(s, q, id))
    && FactPostMeans(facts, |facts|, q, d.removedPassages, d.factPost)
    && SchemaPostMeans(schemas, |schemas|, q, d, d.schemaPost)
    && (forall k :: k in d.ontologyKeys <==> k in s.nodes && OntologyReached(s.nodes[k], k, q, d.schemaPost))
  }

  /** An ontology node that names the document, or that is stored where a concerned schema's node belongs. */
  predicate OntologyReached(node: Node, key: string, q: Request, schemaPost: map<string, Json>) {
    node.layer == "ontology"
    && ((node.corpusId == q.corpusId && Names(node.ref, q.documentId))
        || exists id :: id in schemaPost && key == q.corpusId + ":" + "schema:" + id)
  }

  lemma FateMeans(node: Node, q: Request)
    requires node.corpusId == q.corpusId && node.layer != "ontology" && node.layer != "entity"
    ensures ScanFate(node, q) ==
      if !Names(node.ref, q.documentId) then Untouched else if NamesOther(node.ref, q.documentId) then Shared else Owned
  {
    hide DocIds;
    NamesIsRead(node.ref, q.documentId);
    if HasArray(node.ref, "sourceDocumentIds") {
      var ids := node.ref.fields["sourceDocumentIds"].items;
      if NamesOther(node.ref, q.documentId) {
        var id :| id != q.documentId && Cites(node.ref, "sourceDocumentIds", id);
        var i :| 0 <= i < |ids| && ids[i] == Str(id);
      }
      if i :| 0 <= i < |ids| && ids[i].Str? && ids[i].s != q.documentId {
        assert Cites(node.ref, "sourceDocumentIds", ids[i].s);
      }
    }
  }

  lemma IdIsStoodFor(node: Node, field: string, prefix: string, id: string)
    ensures IdOr(node.ref, field, node.nodeId, prefix) == id <==> StandsFor(node, field, prefix, id)
  {
    SaysIsRead(node.ref, field, id);
    if prefix <= node.nodeId {
      assert node.nodeId == prefix + node.nodeId[|prefix|..];
      assert node.nodeId == prefix + id ==> node.nodeId[|prefix|..] == id;
    }
  }

  lemma SchemaIsStoodFor(node: Node, id: string)
    ensures SchemaIdOf(node) == Some(id) <==> StandsForSchema(node, id)
  {
    SaysIsRead(node.ref, "schemaId", id);
    if "schema:" <= node.nodeId {
      assert node.nodeId == "schema:" + node.nodeId[7..];
    }
    assert node.nodeId == "schema:" + id ==> node.nodeId[7..] == id;
  }

  lemma PassagesMean(s: Store, q: Request, id: string)
    ensures id in RemovedPassages(s, q) <==> GonePassage(s, q, SnapshotItems(s, q.corpusId, "passages"), id)
  {
    hide SnapshotItems, ScanFate, IdOr, StandsFor, NamesOther, Names, Says, FromDocument;
    var items := SnapshotItems(s, q.corpusId, "passages");
    OwnedPassageIdsMembers(items, q, |items|, id);
    forall p ensures OwnedPassage(p, q) <==> FromDocument(p, q.documentId) {
      OwnedIsFrom(p, q);
    }
    forall p ensures GetStr(p, "passageId") == Some(id) <==> Says(p, "passageId", id) {
      SaysIsRead(p, "passageId", id);
    }
    hide OwnedPassage, GetStr;
    forall k | k in s.nodes
      ensures RemovedPassageNode(s.nodes[k], q) <==> InLayer(s.nodes[k], q, "passage") && Exclusive(s.nodes[k].ref, q.documentId)
      ensures IdOr(s.nodes[k].ref, "passageId", s.nodes[k].nodeId, "passage:") == id
        <==> StandsFor(s.nodes[k], "passageId", "passage:", id)
    {
      PassageNodeMeans(s.nodes[k], q);
      IdIsStoodFor(s.nodes[k], "passageId", "passage:", id);
    }
    hide RemovedPassageNode, Exclusive, InLayer, OwnedPassageIds;
  }

  lemma OwnedIsFrom(p: Json, q: Request)
    ensures OwnedPassage(p, q) <==> FromDocument(p, q.documentId)
  {
  }

  lemma PassageNodeMeans(node: Node, q: Request)
    ensures RemovedPassageNode(node, q) <==> InLayer(node, q, "passage") && Exclusive(node.ref, q.documentId)
  {
    hide Names, NamesOther;
    if InLayer(node, q, "passage") {
      FateMeans(node, q);
    }
  }

  ghost predicate FactNodeGoes(node: Node, q: Request, gone: set<string>) {
    InLayer(node, q, "fact") && Names(node.ref, q.documentId)
    && (!NamesOther(node.ref, q.documentId) || Ungrounded(node.ref, gone))
  }

  lemma FactNodeMeans(node: Node, q: Request, gone: set<string>)
    ensures node.layer == "fact" ==> (GroundedFate(node, q, gone) == Owned <==> FactNodeGoes(node, q, gone))
  {
    hide Names, NamesOther, Ungrounded, LosesAll;
    if InLayer(node, q, "fact") {
      FateMeans(node, q);
      hide ScanFate;
      UngroundedIsRead(node.ref, gone);
    }
  }

  lemma FactsGoneMean(s: Store, q: Request, gone: set<string>, id: string)
    ensures var facts := SnapshotItems(s, q.corpusId, "facts");
      id in NodeFacts(s.nodes, q, gone) + DroppedFacts(facts, q, gone, |facts|) <==> GoneFact(s, q, facts, gone, id)
  {
    hide SnapshotItems, GroundedFate, FactAfter, FactGoes, IdOr, StandsFor, Says, GetStr, DroppedFacts;
    var facts := SnapshotItems(s, q.corpusId, "facts");
    DroppedFactsMembers(facts, q, gone, |facts|, id);
    forall f ensures FactAfter(f, q, gone).Dropped? <==> FactGoes(f, q, gone) {
      FactMeans(f, q, gone);
    }
    forall f ensures GetStr(f, "factId") == Some(id) <==> Says(f, "factId", id) {
      SaysIsRead(f, "factId", id);
    }
    forall k | k in s.nodes
      ensures s.nodes[k].layer == "fact" && GroundedFate(s.nodes[k], q, gone) == Owned <==> FactNodeGoes(s.nodes[k], q, gone)
      ensures IdOr(s.nodes[k].ref, "factId", s.nodes[k].nodeId, "fact:") == id <==> StandsFor(s.nodes[k], "factId", "fact:", id)
    {
      FactNodeMeans(s.nodes[k], q, gone);
      IdIsStoodFor(s.nodes[k], "factId", "fact:", id);
    }
    hide NamesOther, Names, Ungrounded;
  }

  lemma {:induction false} TouchedMean(facts: seq<Json>, q: Request, k: nat, id: string)
    requires k <= |facts|
    ensures id in TouchedSchemas(facts, q, k) <==>
      exists i :: 0 <= i < k && Cites(facts[i], "sourceDocumentIds", q.documentId) && Says(facts[i], "schemaId", id)
  {
    hide Lists, GetStr, Cites, Says;
    if k > 0 {
      TouchedMean(facts, q, k - 1, id);
      CitesIsListed(facts[k - 1], "sourceDocumentIds", q.documentId);
      SaysIsRead(facts[k - 1], "schemaId", id);
    }
  }

  lemma SchemaVectorMeans(v: Vector, q: Request, id: string)
    ensures NamesSchema(v, q) && StripPrefix(v.id, "schema:") == id
      <==> v.corpusId == q.corpusId && v.id == "schema:" + id
           && (v.namespace == "schema" || Says(v.metadata, "layer", "ontology")) && Says(v.metadata, "documentId", q.documentId)
  {
    SaysIsRead(v.metadata, "layer", "ontology");
    SaysIsRead(v.metadata, "documentId", q.documentId);
    if "schema:" <= v.id {
      assert v.id == "schema:" + v.id[7..];
    }
    assert v.id == "schema:" + id ==> v.id[7..] == id;
  }

  lemma OntologyNodeMeans(node: Node, q: Request)
    ensures NamesDocument(node, q) <==> InLayer(node, q, "ontology") && Names(node.ref, q.documentId)
  {
    NamesIsRead(node.ref, q.documentId);
  }

  lemma NeededMeans(s: Store, q: Request, id: string)
    ensures id in Needed(s, q) <==> NeededSchema(s, q, id)
  {
    hide NamesDocument, NamesSchema, SchemaIdOf, StandsForSchema, Names, InLayer;
    forall k | k in s.nodes
      ensures NamesDocument(s.nodes[k], q) <==> InLayer(s.nodes[k], q, "ontology") && Names(s.nodes[k].ref, q.documentId)
      ensures SchemaIdOf(s.nodes[k]) == Some(id) <==> StandsForSchema(s.nodes[k], id)
    {
      OntologyNodeMeans(s.nodes[k], q);
      SchemaIsStoodFor(s.nodes[k], id);
    }
    forall k | k in s.vectors
      ensures NamesSchema(s.vectors[k], q) ==> StartsWith(s.vectors[k].id, "schema:")
      ensures NamesSchema(s.vectors[k], q) && StripPrefix(s.vectors[k].id, "schema:") == id
        <==> s.vectors[k].corpusId == q.corpusId && s.vectors[k].id == "schema:" + id
             && (s.vectors[k].namespace == "schema" || Says(s.vectors[k].metadata, "layer", "ontology"))
             && Says(s.vectors[k].metadata, "documentId", q.documentId)
    {
      NamedIsPrefixed(s.vectors[k], q);
      SchemaVectorMeans(s.vectors[k], q, id);
    }
  }

  lemma NamedIsPrefixed(v: Vector, q: Request)
    ensures NamesSchema(v, q) ==> StartsWith(v.id, "schema:")
  {
  }

  lemma {:induction false} FactPostMeansTo(facts: seq<Json>, q: Request, gone: set<string>, k: nat)
    requires k <= |facts|
    ensures FactPostMeans(facts, k, q, gone, FactPost(facts, q, gone, k))
  {
    hide FactAfter, FactGoes, FactBecomes, Cites, Says;
    if k > 0 {
      FactPostMeansTo(facts, q, gone, k - 1);
      FactPostStep(facts, q, gone, k);
    }
  }

  lemma FactPostStep(facts: seq<Json>, q: Request, gone: set<string>, k: nat)
    requires 0 < k <= |facts| && FactPostMeans(facts, k - 1, q, gone, FactPost(facts, q, gone, k - 1))
    ensures FactPostMeans(facts, k, q, gone, FactPost(facts, q, gone, k))
  {
    hide FactAfter, FactGoes, FactBecomes, Cites, Says, GetStr;
    var was, now, fact := FactPost(facts, q, gone, k - 1), FactPost(facts, q, gone, k), facts[k - 1];
    FactMeans(fact, q, gone);
    forall id ensures GetStr(fact, "factId") == Some(id) <==> Says(fact, "factId", id) {
      SaysIsRead(fact, "factId", id);
    }
    if FactAfter(fact, q, gone).Pruned? {
      FactAfterLists(fact, q, gone, "");
    }
    forall id, i: nat | LastCiting(facts, k, q, gone, id, i) ensures id in now && FactBecomes(facts[i], now[id], q, gone) {
      if i < k - 1 {
        assert !StaysCiting(fact, q, gone, id);
        assert LastCiting(facts, k - 1, q, gone, id, i);
      }
    }
    forall id | id in now ensures exists i: nat :: LastCiting(facts, k, q, gone, id, i) {
      if StaysCiting(fact, q, gone, id) {
        assert LastCiting(facts, k, q, gone, id, k - 1);
      } else {
        var i: nat :| LastCiting(facts, k - 1, q, gone, id, i);
        assert LastCiting(facts, k, q, gone, id, i);
      }
    }
  }

  lemma {:induction false} SchemaPostMeansTo(schemas: seq<Json>, q: Request, d: Decision, k: nat)
    requires k <= |schemas|
    ensures SchemaPostMeans(schemas, k, q, d, SchemaPost(schemas, q, d.removedFacts, d.touched, d.needed, k))
  {
    hide SchemaAfter, SchemaNow, SchemaReached, Says;
    if k > 0 {
      SchemaPostMeansTo(schemas, q, d, k - 1);
      SchemaPostStep(schemas, q, d, k);
    }
  }

  lemma SchemaPostStep(schemas: seq<Json>, q: Request, d: Decision, k: nat)
    requires 0 < k <= |schemas|
    requires SchemaPostMeans(schemas, k - 1, q, d, SchemaPost(schemas, q, d.removedFacts, d.touched, d.needed, k - 1))
    ensures SchemaPostMeans(schemas, k, q, d, SchemaPost(schemas, q, d.removedFacts, d.touched, d.needed, k))
  {
    hide SchemaAfter, SchemaAffected, SchemaNow, SchemaReached, Says, GetStr;
    var now, schema := SchemaPost(schemas, q, d.removedFacts, d.touched, d.needed, k), schemas[k - 1];
    ReachedIsAffected(schema, q, d.removedFacts, d.touched);
    SchemaNowMeans(schema, q, d.removedFacts, d.touched);
    forall id ensures GetStr(schema, "schemaId") == Some(id) <==> Says(schema, "schemaId", id) {
      SaysIsRead(schema, "schemaId", id);
    }
    forall id, i: nat | LastConcerned(schemas, k, q, d, id, i)
      ensures id in now && SchemaNow(schemas[i], now[id], q, d.removedFacts, d.touched)
    {
      if i < k - 1 {
        assert !Concerned(schema, q, d, id);
        assert LastConcerned(schemas, k - 1, q, d, id, i);
      }
    }
    forall id | id in now ensures exists i: nat :: LastConcerned(schemas, k, q, d, id, i) {
      if Concerned(schema, q, d, id) {
        assert LastConcerned(schemas, k, q, d, id, k - 1);
      } else {
        var i: nat :| LastConcerned(schemas, k - 1, q, d, id, i);
        assert LastConcerned(schemas, k, q, d, id, i);
      }
    }
  }

  lemma OntologyKeysMean(nodes: map<string, Node>, q: Request, schemaPost: map<string, Json>, k: string)
    ensures k in OntologyKeys(nodes, q, schemaPost) <==> k in nodes && OntologyReached(nodes[k], k, q, schemaPost)
  {
    hide Names, NamesDocument;
    if k in nodes {
      OntologyNodeMeans(nodes[k], q);
    }
    forall id ensures StoreKey(q.corpusId, "schema:" + id) == q.corpusId + ":" + "schema:" + id {
      assert q.corpusId + ":" + "schema:" + id == q.corpusId + ":" + ("schema:" + id);
    }
  }

  /** What the scan decides is what the store says. */
  lemma ScanMeans(s: Store, q: Request)
    ensures DecisionMeans(s, q, Decide(s, q))
  {
    hide RemovedPassages, NodeFacts, DroppedFacts, TouchedSchemas, Needed, SchemaPost, FactPost, OntologyKeys, SnapshotItems,
      GonePassage, GoneFact, NeededSchema, Cites, Says, FactPostMeans, SchemaPostMeans, OntologyReached;
    var d := Decide(s, q);
    var facts, schemas := SnapshotItems(s, q.corpusId, "facts"), SnapshotItems(s, q.corpusId, "schemas");
    forall id
      ensures id in d.removedPassages <==> GonePassage(s, q, SnapshotItems(s, q.corpusId, "passages"), id)
      ensures id in d.removedFacts <==> GoneFact(s, q, facts, d.removedPassages, id)
      ensures id in d.needed <==> NeededSchema(s, q, id)
      ensures id in d.touched <==> exists f :: f in facts && Cites(f, "sourceDocumentIds", q.documentId) && Says(f, "schemaId", id)
    {
      PassagesMean(s, q, id);
      FactsGoneMean(s, q, d.removedPassages, id);
      NeededMeans(s, q, id);
      TouchedMean(facts, q, |facts|, id);
    }
    FactPostMeansTo(facts, q, d.removedPassages, |facts|);
    SchemaPostMeansTo(schemas, q, d, |schemas|);
    forall k ensures k in d.ontologyKeys <==> k in s.nodes && OntologyReached(s.nodes[k], k, q, d.schemaPost) {
      OntologyKeysMean(s.nodes, q, d.schemaPost, k);
    }
  }
}
