/** How pruning changes what a stored JSON object lists, and what it leaves alone. */
module DeleteJson {
  import opened Wrappers
  import opened StableSort
  import opened Json
  import opened DeleteSpec

  lemma {:induction false} FilterMembers<T>(p: T -> bool, s: seq<T>, x: T)
    ensures x in Filter(p, s) <==> x in s && p(x)
  {
    if s != [] {
      FilterMembers(p, s[1..], x);
      assert x in s <==> x == s[0] || x in s[1..];
    }
  }

  lemma PruneMembers(items: seq<Json>, drop: set<string>, v: Json)
    ensures v in Prune(items, drop) <==> v in items && !(v.Str? && v.s in drop)
  {
    FilterMembers((w: Json) => !(w.Str? && w.s in drop), items, v);
  }

  /** Pruning a field removes exactly the given ids from it. */
  lemma PruneFieldLists(v: Json, name: string, drop: set<string>, id: string)
    ensures Lists(PruneField(v, name, drop), name, id) <==> Lists(v, name, id) && id !in drop
  {
    if GetArray(v, name).Some? {
      PruneMembers(GetArray(v, name).value, drop, Str(id));
    }
  }

  lemma PruneFieldKeeps(v: Json, name: string, drop: set<string>, other: string)
    requires other != name
    ensures Get(PruneField(v, name, drop), other) == Get(v, other)
    ensures GetArray(PruneField(v, name, drop), name).Some? <==> GetArray(v, name).Some?
  {
  }

  lemma StampKeeps(v: Json, updatedAt: string, other: string)
    requires other != "updatedAt"
    ensures Get(Stamp(v, updatedAt), other) == Get(v, other)
  {
  }

  lemma {:induction false} FirstOfMember(items: seq<Json>)
    ensures FirstOf(items).Some? ==> Str(FirstOf(items).value) in items
    ensures FirstOf(items).None? ==> forall i :: 0 <= i < |items| ==> !items[i].Str?
  {
    if items != [] && !items[0].Str? {
      FirstOfMember(items[1..]);
    }
  }

  lemma FirstStringListed(v: Json, name: string)
    ensures FirstString(v, name).Some? ==> Lists(v, name, FirstString(v, name).value)
    ensures FirstString(v, name).None? ==> forall id :: !Lists(v, name, id)
  {
    if GetArray(v, name).Some? {
      FirstOfMember(GetArray(v, name).value);
    }
  }

  lemma {:induction false} StringsMembers(items: seq<Json>, x: string)
    ensures x in Strings(items) <==> Str(x) in items
  {
    if items != [] {
      StringsMembers(items[1..], x);
      assert Str(x) in items <==> Str(x) == items[0] || Str(x) in items[1..];
    }
  }

  /** A ref with a document list names exactly the documents of that list. */
  lemma DocIdsListed(ref: Json, x: string)
    requires GetArray(ref, "sourceDocumentIds").Some?
    ensures x in DocIds(ref) <==> Lists(ref, "sourceDocumentIds", x)
  {
    StringsMembers(GetArray(ref, "sourceDocumentIds").value, x);
  }

  /** Both lists of a schema are pruned, and its id is kept. */
  lemma PruneSchemaLists(schema: Json, documentId: string, removedFacts: set<string>, updatedAt: string, id: string)
    ensures var after := PruneSchema(schema, documentId, removedFacts, updatedAt);
      && (Lists(after, "sourceDocumentIds", id) <==> Lists(schema, "sourceDocumentIds", id) && id != documentId)
      && (Lists(after, "factIds", id) <==> Lists(schema, "factIds", id) && id !in removedFacts)
      && GetStr(after, "schemaId") == GetStr(schema, "schemaId")
  {
    var once := PruneField(schema, "sourceDocumentIds", {documentId});
    var twice := PruneField(once, "factIds", removedFacts);
    PruneFieldLists(schema, "sourceDocumentIds", {documentId}, id);
    PruneFieldLists(once, "factIds", removedFacts, id);
    PruneFieldKeeps(schema, "sourceDocumentIds", {documentId}, "factIds");
    PruneFieldKeeps(once, "factIds", removedFacts, "sourceDocumentIds");
    assert Lists(twice, "sourceDocumentIds", id) == Lists(once, "sourceDocumentIds", id);
    assert Lists(once, "factIds", id) == Lists(schema, "factIds", id);
    SchemaFieldsKept(twice, schema, documentId, removedFacts, updatedAt, "sourceDocumentIds");
    SchemaFieldsKept(twice, schema, documentId, removedFacts, updatedAt, "factIds");
    SchemaFieldsKept(twice, schema, documentId, removedFacts, updatedAt, "schemaId");
    PruneFieldKeeps(schema, "sourceDocumentIds", {documentId}, "schemaId");
    PruneFieldKeeps(once, "factIds", removedFacts, "schemaId");
  }

  lemma SchemaFieldsKept(pruned: Json, schema: Json, documentId: string, removedFacts: set<string>, updatedAt: string, name: string)
    requires pruned == PruneField(PruneField(schema, "sourceDocumentIds", {documentId}), "factIds", removedFacts)
    requires name != "frequency" && name != "state" && name != "updatedAt"
    ensures Get(PruneSchema(schema, documentId, removedFacts, updatedAt), name) == Get(pruned, name)
  {
  }

  /** The frequency of a pruned schema goes down once, and its state follows the new value. */
  lemma PruneSchemaCounts(schema: Json, documentId: string, removedFacts: set<string>, updatedAt: string, frequency: nat)
    requires SafeCount(Get(schema, "frequency")) == Some(frequency)
    ensures var after := PruneSchema(schema, documentId, removedFacts, updatedAt);
      && SafeCount(Get(after, "frequency")) == Some(if frequency == 0 then 0 else frequency - 1)
      && (SafeCount(Get(schema, "stabilizationThreshold")).Some? ==>
            (GetStr(after, "state") == Some("stable")
             <==> SafeCount(Get(after, "frequency")).value >= SafeCount(Get(schema, "stabilizationThreshold")).value))
      && GetStr(after, "updatedAt") == Some(updatedAt)
  {
    var once := PruneField(schema, "sourceDocumentIds", {documentId});
    PruneFieldKeeps(schema, "sourceDocumentIds", {documentId}, "frequency");
    PruneFieldKeeps(once, "factIds", removedFacts, "frequency");
    PruneFieldKeeps(schema, "sourceDocumentIds", {documentId}, "stabilizationThreshold");
    PruneFieldKeeps(once, "factIds", removedFacts, "stabilizationThreshold");
  }

  // ---------- one fact, one schema, one ref ----------

  /** A fact that survives no longer lists the document; its ids are otherwise its own. */
  lemma FactAfterLists(fact: Json, q: Request, removedPassages: set<string>, id: string)
    requires FactAfter(fact, q, removedPassages).Pruned?
    ensures var after := FactAfter(fact, q, removedPassages).fact;
      && (Lists(after, "sourceDocumentIds", id) <==> Lists(fact, "sourceDocumentIds", id) && id != q.documentId)
      && (Lists(after, "passageIds", id) <==> Lists(fact, "passageIds", id) && id !in removedPassages)
      && GetStr(after, "factId") == GetStr(fact, "factId")
      && GetArray(after, "sourceDocumentIds").Some?
      && FirstString(after, "sourceDocumentIds").Some?
  {
    var once := PruneField(fact, "sourceDocumentIds", {q.documentId});
    var twice := PruneField(once, "passageIds", removedPassages);
    PruneFieldLists(fact, "sourceDocumentIds", {q.documentId}, id);
    PruneFieldLists(once, "passageIds", removedPassages, id);
    PruneFieldKeeps(fact, "sourceDocumentIds", {q.documentId}, "passageIds");
    PruneFieldKeeps(once, "passageIds", removedPassages, "sourceDocumentIds");
    PruneFieldKeeps(fact, "sourceDocumentIds", {q.documentId}, "factId");
    PruneFieldKeeps(once, "passageIds", removedPassages, "factId");
    StampKeeps(twice, q.updatedAt, "sourceDocumentIds");
    StampKeeps(twice, q.updatedAt, "passageIds");
    StampKeeps(twice, q.updatedAt, "factId");
  }

  /** A ref pruned in place no longer lists the document. */
  lemma RefPruned(ref: Json, q: Request, other: string, drop: set<string>)
    requires other != "sourceDocumentIds" && other != "updatedAt"
    ensures var after := Stamp(PruneField(PruneField(ref, "sourceDocumentIds", {q.documentId}), other, drop), q.updatedAt);
      && !Lists(after, "sourceDocumentIds", q.documentId)
      && (GetArray(after, "sourceDocumentIds").Some? <==> GetArray(ref, "sourceDocumentIds").Some?)
  {
    var once := PruneField(ref, "sourceDocumentIds", {q.documentId});
    var twice := PruneField(once, other, drop);
    PruneFieldLists(ref, "sourceDocumentIds", {q.documentId}, q.documentId);
    PruneFieldKeeps(ref, "sourceDocumentIds", {q.documentId}, other);
    PruneFieldKeeps(once, other, drop, "sourceDocumentIds");
    StampKeeps(twice, q.updatedAt, "sourceDocumentIds");
  }

  // ---------- the fact list ----------

  /** A fact is in the new list exactly when some old fact was kept as it or pruned to it. */
  lemma {:induction false} FactsAfterMembers(facts: seq<Json>, q: Request, removedPassages: set<string>, k: nat, v: Json)
    requires k <= |facts|
    ensures v in FactsAfter(facts, q, removedPassages, k) <==> exists i :: 0 <= i < k && Becomes(facts[i], q, removedPassages, v)
  {
    if k > 0 {
      FactsAfterMembers(facts, q, removedPassages, k - 1, v);
      var before := FactsAfter(facts, q, removedPassages, k - 1);
      assert v in FactsAfter(facts, q, removedPassages, k) <==> v in before || Becomes(facts[k - 1], q, removedPassages, v);
    }
  }

  predicate Becomes(fact: Json, q: Request, removedPassages: set<string>, after: Json) {
    match FactAfter(fact, q, removedPassages)
    case Kept => after == fact
    case Pruned(pruned) => after == pruned
    case Dropped => false
  }

  lemma {:induction false} DroppedFactsMembers(facts: seq<Json>, q: Request, removedPassages: set<string>, k: nat, id: string)
    requires k <= |facts|
    ensures id in DroppedFacts(facts, q, removedPassages, k) <==>
      exists i :: 0 <= i < k && FactAfter(facts[i], q, removedPassages).Dropped? && GetStr(facts[i], "factId") == Some(id)
  {
    hide FactAfter;
    if k > 0 {
      DroppedFactsMembers(facts, q, removedPassages, k - 1, id);
    }
  }

  lemma {:induction false} OwnedPassageIdsMembers(items: seq<Json>, q: Request, k: nat, id: string)
    requires k <= |items|
    ensures id in OwnedPassageIds(items, q, k) <==>
      exists i :: 0 <= i < k && OwnedPassage(items[i], q) && GetStr(items[i], "passageId") == Some(id)
  {
    hide OwnedPassage;
    if k > 0 {
      OwnedPassageIdsMembers(items, q, k - 1, id);
    }
  }

  predicate UniqueIds(items: seq<Json>, field: string) {
    && (forall i :: 0 <= i < |items| ==> GetStr(items[i], field).Some?)
    && (forall i, j :: 0 <= i < j < |items| ==> GetStr(items[i], field) != GetStr(items[j], field))
  }

  predicate MakesPost(fact: Json, q: Request, removedPassages: set<string>, id: string, after: Json) {
    FactAfter(fact, q, removedPassages) == Pruned(after) && GetStr(fact, "factId") == Some(id) == GetStr(after, "factId")
  }

  /** Every mirrored fact is a pruned fact of that id. */
  lemma {:induction false} FactPostKnown(facts: seq<Json>, q: Request, removedPassages: set<string>, k: nat, id: string)
    requires k <= |facts|
    ensures id in FactPost(facts, q, removedPassages, k) ==>
      exists i :: 0 <= i < k && MakesPost(facts[i], q, removedPassages, id, FactPost(facts, q, removedPassages, k)[id])
  {
    if k > 0 {
      FactPostKnown(facts, q, removedPassages, k - 1, id);
      if FactAfter(facts[k - 1], q, removedPassages).Pruned? {
        FactAfterLists(facts[k - 1], q, removedPassages, "");
      }
      hide FactAfter;
      if id in FactPost(facts, q, removedPassages, k) && GetStr(facts[k - 1], "factId") == Some(id)
         && FactAfter(facts[k - 1], q, removedPassages).Pruned? {
        assert MakesPost(facts[k - 1], q, removedPassages, id, FactPost(facts, q, removedPassages, k)[id]);
      }
    }
  }

  /** With unique ids, the mirror of a pruned fact is that fact. */
  lemma FactPostIs(facts: seq<Json>, q: Request, removedPassages: set<string>, i: nat)
    requires i < |facts| && UniqueIds(facts, "factId")
    ensures var id, after := GetStr(facts[i], "factId").value, FactAfter(facts[i], q, removedPassages);
      && (id in FactPost(facts, q, removedPassages, |facts|) <==> after.Pruned?)
      && (after.Pruned? ==> FactPost(facts, q, removedPassages, |facts|)[id] == after.fact)
  {
    hide FactAfter;
    var id := GetStr(facts[i], "factId").value;
    FactPostKnown(facts, q, removedPassages, |facts|, id);
    if FactAfter(facts[i], q, removedPassages).Pruned? {
      FactPostHas(facts, q, removedPassages, |facts|, i);
    }
  }

  lemma {:induction false} FactPostHas(facts: seq<Json>, q: Request, removedPassages: set<string>, k: nat, i: nat)
    requires i < k <= |facts| && FactAfter(facts[i], q, removedPassages).Pruned? && GetStr(facts[i], "factId").Some?
    ensures GetStr(facts[i], "factId").value in FactPost(facts, q, removedPassages, k)
  {
    FactAfterLists(facts[i], q, removedPassages, "");
    hide FactAfter;
    if i < k - 1 {
      FactPostHas(facts, q, removedPassages, k - 1, i);
    }
  }

  // ---------- the schema list ----------

  predicate MakesSchema(schema: Json, q: Request, removedFacts: set<string>, touched: set<string>, id: string, after: Json) {
    SchemaAfter(schema, q, removedFacts, touched) == after && GetStr(schema, "schemaId") == Some(id)
  }

  lemma {:induction false} SchemaPostKnown(schemas: seq<Json>, q: Request, removedFacts: set<string>, touched: set<string>,
                                           needed: set<string>, k: nat, id: string)
    requires k <= |schemas|
    ensures var post := SchemaPost(schemas, q, removedFacts, touched, needed, k);
      id in post ==> exists i :: 0 <= i < k && MakesSchema(schemas[i], q, removedFacts, touched, id, post[id])
  {
    if k > 0 {
      SchemaPostKnown(schemas, q, removedFacts, touched, needed, k - 1, id);
      hide SchemaAfter, SchemaAffected;
      var post := SchemaPost(schemas, q, removedFacts, touched, needed, k);
      if id in post && GetStr(schemas[k - 1], "schemaId") == Some(id)
         && (SchemaAffected(schemas[k - 1], q, removedFacts, touched) || id in needed) {
        assert MakesSchema(schemas[k - 1], q, removedFacts, touched, id, post[id]);
      }
    }
  }

  lemma {:induction false} SchemaPostHas(schemas: seq<Json>, q: Request, removedFacts: set<string>, touched: set<string>,
                                         needed: set<string>, k: nat, i: nat)
    requires i < k <= |schemas| && GetStr(schemas[i], "schemaId").Some?
    requires SchemaAffected(schemas[i], q, removedFacts, touched) || GetStr(schemas[i], "schemaId").value in needed
    ensures GetStr(schemas[i], "schemaId").value in SchemaPost(schemas, q, removedFacts, touched, needed, k)
  {
    hide SchemaAfter, SchemaAffected;
    if i < k - 1 {
      SchemaPostHas(schemas, q, removedFacts, touched, needed, k - 1, i);
    }
  }

  /** No schema lists the document after its pass, and affected ones no longer list a removed fact. */
  lemma SchemaAfterLists(schema: Json, q: Request, removedFacts: set<string>, touched: set<string>, id: string)
    requires GetStr(schema, "schemaId").Some?
    ensures var after := SchemaAfter(schema, q, removedFacts, touched);
      && (Lists(after, "sourceDocumentIds", id) <==> Lists(schema, "sourceDocumentIds", id) && id != q.documentId)
      && (Lists(after, "factIds", id) <==> Lists(schema, "factIds", id) && id !in removedFacts)
      && GetStr(after, "schemaId") == GetStr(schema, "schemaId")
  {
    PruneSchemaLists(schema, q.documentId, removedFacts, q.updatedAt, id);
    if Lists(schema, "factIds", id) && id in removedFacts {
      assert ListsAny(schema, "factIds", removedFacts);
    }
  }
}
