/**
  What the catalog accepts and finds, in terms of the stored JSON alone: clean
  snapshots, one place for every id, complete edges, and the item of a section.
 */
module CatalogMeaning {
  import opened Wrappers
  import opened Accounting
  import opened Text
  import opened StableSort
  import opened Json
  import opened Graph
  import opened Catalog

  predicate Reads(v: Json, field: string, s: string) {
    v.Obj? && field in v.fields && v.fields[field] == Str(s)
  }

  /** Each of the three sections names its items under its own field; there is no other section. */
  predicate IsItem(section: string, v: Json, id: string) {
    || (section == "passages" && Reads(v, "passageId", id))
    || (section == "facts" && Reads(v, "factId", id))
    || (section == "schemas" && Reads(v, "schemaId", id))
  }

  /** The items of a section: a missing one has none, and one that is no array has no item list at all. */
  predicate Holds(snapshot: Json, section: string, items: seq<Json>) {
    if snapshot.Obj? && section in snapshot.fields then snapshot.fields[section] == Arr(items) else items == []
  }

  predicate CleanId(id: string) {
    1 <= |Utf8(id)| <= 4096
  }

  ghost predicate CleanItem(corpusId: string, section: string, v: Json) {
    Reads(v, "corpusId", corpusId) && exists id :: CleanId(id) && IsItem(section, v, id)
  }

  ghost predicate CleanSection(corpusId: string, snapshot: Json, section: string) {
    exists items :: Holds(snapshot, section, items) && forall i :: 0 <= i < |items| ==> CleanItem(corpusId, section, items[i])
  }

  ghost predicate CleanSnapshot(corpusId: string, snapshot: Json) {
    && Reads(snapshot, "corpusId", corpusId)
    && CleanSection(corpusId, snapshot, "passages") && CleanSection(corpusId, snapshot, "facts")
    && CleanSection(corpusId, snapshot, "schemas")
  }

  /** `v` is the item of that id at place `i` of a snapshot's section. */
  ghost predicate ItemAt(snapshot: Json, section: string, i: nat, id: string, v: Json) {
    exists items :: Holds(snapshot, section, items) && i < |items| && items[i] == v && IsItem(section, v, id)
  }

  /** The corpus's snapshot holds it there. */
  ghost predicate Stands(snapshots: seq<(string, Json)>, corpusId: string, section: string, i: nat, id: string, v: Json) {
    exists k :: 0 <= k < |snapshots| && snapshots[k].0 == corpusId && ItemAt(snapshots[k].1, section, i, id, v)
  }

  /** The node is recorded under its key with its own id and corpus, and its id is clean. */
  predicate Recorded(nodes: map<string, NodeRecord>, corpusId: string, nodeId: string) {
    var key := corpusId + ":" + nodeId;
    CleanId(nodeId) && key in nodes && nodes[key].nodeId == nodeId && nodes[key].corpusId == corpusId
  }

  ghost predicate EndsAt<S>(e: GraphEdge<S>, corpusId: string, nodeId: string) {
    e.corpusId == corpusId && (e.sourceNodeId == nodeId || e.targetNodeId == nodeId)
  }

  /** The endpoints that the corpus's own edges have. */
  ghost predicate AreEndpoints<S>(edges: seq<GraphEdge<S>>, corpusId: string, ids: set<string>) {
    forall id :: id in ids <==> exists j :: 0 <= j < |edges| && EndsAt(edges[j], corpusId, id)
  }

  // ---------- sections and ids ----------

  lemma SectionIs(snapshot: Json, section: string, items: seq<Json>)
    ensures SectionItems(snapshot, section) == Success(items) <==> Holds(snapshot, section, items)
  {
  }

  lemma ItemIs(section: string, v: Json, id: string)
    requires section in SECTIONS
    ensures GetStr(v, IdField(section)) == Some(id) <==> IsItem(section, v, id)
  {
  }

  lemma Utf8Empty(s: string)
    ensures s == "" <==> |Utf8(s)| == 0
  {
  }

  lemma CleanIdIs(id: string)
    ensures DomainId(id) <==> CleanId(id)
  {
    hide Utf8;
    Utf8Empty(id);
  }

  lemma CleanItemIs(corpusId: string, section: string, v: Json)
    requires section in SECTIONS
    ensures ItemOk(corpusId, section, v) <==> CleanItem(corpusId, section, v)
  {
    hide IdField, IsItem, DomainId, CleanId;
    forall id ensures GetStr(v, IdField(section)) == Some(id) <==> IsItem(section, v, id) {
      ItemIs(section, v, id);
    }
    forall id ensures DomainId(id) <==> CleanId(id) {
      CleanIdIs(id);
    }
  }

  lemma CleanSectionIs(corpusId: string, snapshot: Json, section: string)
    requires section in SECTIONS
    ensures SectionOk(corpusId, snapshot, section) <==> CleanSection(corpusId, snapshot, section)
  {
    hide ItemOk, CleanItem, SectionItems, Holds;
    forall items ensures SectionItems(snapshot, section) == Success(items) <==> Holds(snapshot, section, items) {
      SectionIs(snapshot, section, items);
    }
    forall v ensures ItemOk(corpusId, section, v) <==> CleanItem(corpusId, section, v) {
      CleanItemIs(corpusId, section, v);
    }
  }

  lemma CleanSnapshotIs(corpusId: string, snapshot: Json)
    ensures SnapshotOk(corpusId, snapshot) <==> CleanSnapshot(corpusId, snapshot)
  {
    hide SectionOk, CleanSection;
    CleanSectionIs(corpusId, snapshot, SECTIONS[0]);
    CleanSectionIs(corpusId, snapshot, SECTIONS[1]);
    CleanSectionIs(corpusId, snapshot, SECTIONS[2]);
    assert (forall k :: 0 <= k < |SECTIONS| ==> SectionOk(corpusId, snapshot, SECTIONS[k]))
      <==> SectionOk(corpusId, snapshot, SECTIONS[0]) && SectionOk(corpusId, snapshot, SECTIONS[1])
           && SectionOk(corpusId, snapshot, SECTIONS[2]);
  }

  lemma EdgeIsRecorded<S>(nodes: map<string, NodeRecord>, e: GraphEdge<S>)
    ensures EdgeOk(nodes, e) <==> Recorded(nodes, e.corpusId, e.sourceNodeId) && Recorded(nodes, e.corpusId, e.targetNodeId)
  {
    hide DomainId, CleanId;
    CleanIdIs(e.sourceNodeId);
    CleanIdIs(e.targetNodeId);
  }

  // ---------- entries and places ----------

  lemma ItemIsAt(snapshot: Json, section: string, i: nat, id: string)
    requires section in SECTIONS
    ensures ItemIn(snapshot, section, i, id) <==> exists v :: ItemAt(snapshot, section, i, id, v)
    ensures forall v :: ItemAt(snapshot, section, i, id, v) ==>
      SectionItems(snapshot, section).Success? && i < |SectionItems(snapshot, section).value|
      && SectionItems(snapshot, section).value[i] == v
  {
    hide IsItem, Holds, SectionItems, IdField, GetStr;
    var found := SectionItems(snapshot, section);
    forall items ensures found == Success(items) <==> Holds(snapshot, section, items) {
      SectionIs(snapshot, section, items);
    }
    if found.Success? && i < |found.value| {
      ItemIs(section, found.value[i], id);
      if IsItem(section, found.value[i], id) {
        assert ItemAt(snapshot, section, i, id, found.value[i]);
      }
    }
  }

  /** With one snapshot a corpus, an entry of the index stands for a place. */
  lemma EntryStands(snapshots: seq<(string, Json)>, e: Entry)
    requires DistinctCorpora(snapshots) && forall j :: 0 <= j < |snapshots| ==> SnapshotOk(snapshots[j].0, snapshots[j].1)
    ensures e in Entries(snapshots, |snapshots|) <==> exists v :: Stands(snapshots, e.corpusId, e.section, e.index, e.id, v)
  {
    hide Entries, ItemAt, ItemIn, SnapshotOk, FindSnapshot, Stands;
    EntriesAre(snapshots, |snapshots|, e);
    var found := FindSnapshot(snapshots, e.corpusId, |snapshots|);
    forall v ensures Stands(snapshots, e.corpusId, e.section, e.index, e.id, v)
      <==> found.Some? && ItemAt(found.value, e.section, e.index, e.id, v)
    {
      StandsInFound(snapshots, e.corpusId, e.section, e.index, e.id, v);
    }
    if found.Some? {
      if e.section in SECTIONS {
        ItemIsAt(found.value, e.section, e.index, e.id);
      } else {
        forall v ensures !ItemAt(found.value, e.section, e.index, e.id, v) {
          NoOtherSection(e.section, found.value, e.index, e.id, v);
        }
      }
    }
  }

  lemma NoOtherSection(section: string, snapshot: Json, i: nat, id: string, v: Json)
    ensures section !in SECTIONS ==> !ItemAt(snapshot, section, i, id, v)
  {
    assert "passages" in SECTIONS && "facts" in SECTIONS && "schemas" in SECTIONS by {
      assert SECTIONS[0] == "passages" && SECTIONS[1] == "facts" && SECTIONS[2] == "schemas";
    }
  }

  lemma FoundIs(snapshots: seq<(string, Json)>, corpusId: string)
    requires DistinctCorpora(snapshots)
    ensures var found := FindSnapshot(snapshots, corpusId, |snapshots|);
      && (found.Some? ==> exists k :: 0 <= k < |snapshots| && snapshots[k] == (corpusId, found.value))
      && (forall k :: 0 <= k < |snapshots| && snapshots[k].0 == corpusId ==> found == Some(snapshots[k].1))
  {
    var n := |snapshots|;
    if FindSnapshot(snapshots, corpusId, n).Some? {
      FoundAt(snapshots, corpusId, n);
    } else {
      forall k | 0 <= k < n && snapshots[k].0 == corpusId ensures false {
        FindsAny(snapshots, corpusId, n, k);
      }
    }
  }

  lemma {:induction false} FindsAny(snapshots: seq<(string, Json)>, corpusId: string, n: nat, k: nat)
    requires k < n <= |snapshots| && snapshots[k].0 == corpusId
    ensures FindSnapshot(snapshots, corpusId, n).Some?
  {
    if k < n - 1 {
      FindsAny(snapshots, corpusId, n - 1, k);
    }
  }

  /** No entry is listed twice: its place tells it apart. */
  lemma {:induction false} ItemsApart(corpusId: string, section: string, items: seq<Json>, k: nat)
    requires k <= |items|
    ensures var es := ItemEntries(corpusId, section, items, k);
      |es| == k && forall i :: 0 <= i < k ==> es[i].index == i && es[i].section == section && es[i].corpusId == corpusId
  {
    if k > 0 {
      ItemsApart(corpusId, section, items, k - 1);
    }
  }

  predicate Apart(es: seq<Entry>) {
    forall i, j :: 0 <= i < j < |es| ==> es[i] != es[j]
  }

  lemma ApartConcat(a: seq<Entry>, b: seq<Entry>)
    requires Apart(a) && Apart(b) && forall i, j :: 0 <= i < |a| && 0 <= j < |b| ==> a[i] != b[j]
    ensures Apart(a + b)
  {
    var all := a + b;
    forall i, j | 0 <= i < j < |all| ensures all[i] != all[j] {
      assert all[i] == if i < |a| then a[i] else b[i - |a|];
      assert all[j] == if j < |a| then a[j] else b[j - |a|];
    }
  }

  lemma SectionApart(corpusId: string, snapshot: Json, section: string)
    ensures var es := SectionEntries(corpusId, snapshot, section);
      Apart(es) && forall i :: 0 <= i < |es| ==> es[i].section == section && es[i].corpusId == corpusId
  {
    var items := SectionItems(snapshot, section);
    if items.Success? {
      ItemsApart(corpusId, section, items.value, |items.value|);
    }
  }

  lemma {:induction false} SnapshotApart(corpusId: string, snapshot: Json, k: nat)
    requires k <= |SECTIONS|
    ensures var es := SnapshotEntries(corpusId, snapshot, k);
      Apart(es) && forall i :: 0 <= i < |es| ==> es[i].corpusId == corpusId && es[i].section in SECTIONS[..k]
  {
    hide SectionEntries, Apart;
    if k > 0 {
      SnapshotApart(corpusId, snapshot, k - 1);
      SectionApart(corpusId, snapshot, SECTIONS[k - 1]);
      SectionsDiffer(k);
      ApartConcat(SnapshotEntries(corpusId, snapshot, k - 1), SectionEntries(corpusId, snapshot, SECTIONS[k - 1]));
    } else {
      NoneApart();
    }
  }

  lemma NoneApart()
    ensures Apart([])
  {
  }

  lemma SectionsDiffer(k: nat)
    requires 0 < k <= |SECTIONS|
    ensures SECTIONS[k - 1] !in SECTIONS[..k - 1] && SECTIONS[k - 1] in SECTIONS[..k]
    ensures forall x :: x in SECTIONS[..k - 1] ==> x in SECTIONS[..k]
  {
    assert SECTIONS[0] == "passages" && SECTIONS[1] == "facts" && SECTIONS[2] == "schemas";
    assert SECTIONS[..k] == SECTIONS[..k - 1] + [SECTIONS[k - 1]];
  }

  lemma {:induction false} EntriesApart(snapshots: seq<(string, Json)>, k: nat)
    requires k <= |snapshots| && DistinctCorpora(snapshots)
    ensures var es := Entries(snapshots, k);
      Apart(es) && forall i :: 0 <= i < |es| ==> exists j :: 0 <= j < k && snapshots[j].0 == es[i].corpusId
  {
    hide SnapshotEntries, Apart;
    if k > 0 {
      EntriesApart(snapshots, k - 1);
      SnapshotApart(snapshots[k - 1].0, snapshots[k - 1].1, |SECTIONS|);
      ApartConcat(Entries(snapshots, k - 1), SnapshotEntries(snapshots[k - 1].0, snapshots[k - 1].1, |SECTIONS|));
    } else {
      NoneApart();
    }
  }

  // ---------- the build ----------

  /** No corpus has two items of one id in a section. */
  ghost predicate OnePlaceEach(snapshots: seq<(string, Json)>) {
    forall c, section, id, i: nat, j: nat, v, w ::
      Stands(snapshots, c, section, i, id, v) && Stands(snapshots, c, section, j, id, w) ==> i == j
  }

  /** What the catalog is built from: clean snapshots with one place for every id, and complete edges within the caps. */
  ghost predicate Clean<S>(state: Stored<S>) {
    && (forall k :: 0 <= k < |state.snapshots| ==> CleanSnapshot(state.snapshots[k].0, state.snapshots[k].1))
    && OnePlaceEach(state.snapshots)
    && |state.edges| <= 4_000_000
    && (forall j :: 0 <= j < |state.edges| ==>
          Recorded(state.nodes, state.edges[j].corpusId, state.edges[j].sourceNodeId)
          && Recorded(state.nodes, state.edges[j].corpusId, state.edges[j].targetNodeId))
    && (forall c, ids :: AreEndpoints(state.edges, c, ids) ==> |ids| <= 1_500_000)
  }

  lemma StandsAddressable(snapshots: seq<(string, Json)>, corpusId: string, section: string, i: nat, id: string, v: Json)
    requires forall k :: 0 <= k < |snapshots| ==> SnapshotOk(snapshots[k].0, snapshots[k].1) && Addressable(snapshots[k].0)
    requires Stands(snapshots, corpusId, section, i, id, v)
    ensures Addressable(corpusId) && Addressable(section) && Addressable(id) && section in SECTIONS
  {
    hide Addressable, ItemAt, SectionOk, SectionItems;
    var k :| 0 <= k < |snapshots| && snapshots[k].0 == corpusId && ItemAt(snapshots[k].1, section, i, id, v);
    NoOtherSection(section, snapshots[k].1, i, id, v);
    SectionsAddressable(section);
    ItemIsAt(snapshots[k].1, section, i, id);
    var s :| 0 <= s < |SECTIONS| && SECTIONS[s] == section;
    assert SectionOk(corpusId, snapshots[k].1, SECTIONS[s]);
    ItemIdShort(corpusId, snapshots[k].1, section, i, id);
  }

  lemma ItemIdShort(corpusId: string, snapshot: Json, section: string, i: nat, id: string)
    requires SectionOk(corpusId, snapshot, section) && ItemIn(snapshot, section, i, id)
    ensures Addressable(id)
  {
    hide Utf8;
    assert ItemOk(corpusId, section, SectionItems(snapshot, section).value[i]);
  }

  /** Keys are distinct exactly when every id has one place. */
  lemma KeysTellPlaces(snapshots: seq<(string, Json)>)
    requires DistinctCorpora(snapshots)
    requires forall k :: 0 <= k < |snapshots| ==> SnapshotOk(snapshots[k].0, snapshots[k].1) && Addressable(snapshots[k].0)
    ensures DistinctKeys(Entries(snapshots, |snapshots|)) <==> OnePlaceEach(snapshots)
  {
    hide Entries, Stands, KeyBytes, Addressable, SnapshotOk;
    var es := Entries(snapshots, |snapshots|);
    EntriesApart(snapshots, |snapshots|);
    if DistinctKeys(es) {
      forall c, section, id, i: nat, j: nat, v, w | Stands(snapshots, c, section, i, id, v)
        && Stands(snapshots, c, section, j, id, w)
        ensures i == j
      {
        SamePlace(snapshots, c, section, id, i, j, v, w);
      }
    }
    if OnePlaceEach(snapshots) {
      forall x, y | 0 <= x < y < |es| ensures KeyOf(es[x]) != KeyOf(es[y]) {
        if KeyOf(es[x]) == KeyOf(es[y]) {
          SameKey(snapshots, es[x], es[y]);
          assert false;
        }
      }
    }
  }

  lemma {:induction false} SamePlace(snapshots: seq<(string, Json)>, c: string, section: string, id: string, i: nat,
                                     j: nat, v: Json, w: Json)
    requires DistinctCorpora(snapshots) && forall k :: 0 <= k < |snapshots| ==> SnapshotOk(snapshots[k].0, snapshots[k].1)
    requires DistinctKeys(Entries(snapshots, |snapshots|))
    requires Stands(snapshots, c, section, i, id, v) && Stands(snapshots, c, section, j, id, w)
    ensures i == j
  {
    hide Entries, Stands, KeyBytes, SnapshotOk;
    var es := Entries(snapshots, |snapshots|);
    EntryStands(snapshots, Entry(c, section, id, i));
    EntryStands(snapshots, Entry(c, section, id, j));
    var x :| 0 <= x < |es| && es[x] == Entry(c, section, id, i);
    var y :| 0 <= y < |es| && es[y] == Entry(c, section, id, j);
    assert KeyOf(es[x]) == KeyOf(es[y]);
  }

  lemma {:induction false} SameKey(snapshots: seq<(string, Json)>, d: Entry, e: Entry)
    requires DistinctCorpora(snapshots) && OnePlaceEach(snapshots)
    requires forall k :: 0 <= k < |snapshots| ==> SnapshotOk(snapshots[k].0, snapshots[k].1) && Addressable(snapshots[k].0)
    requires d in Entries(snapshots, |snapshots|) && e in Entries(snapshots, |snapshots|) && KeyOf(d) == KeyOf(e)
    ensures d == e
  {
    hide Entries, Stands, KeyBytes, SnapshotOk, Addressable;
    EntryStands(snapshots, d);
    EntryStands(snapshots, e);
    var v :| Stands(snapshots, d.corpusId, d.section, d.index, d.id, v);
    var w :| Stands(snapshots, e.corpusId, e.section, e.index, e.id, w);
    StandsAddressable(snapshots, d.corpusId, d.section, d.index, d.id, v);
    StandsAddressable(snapshots, e.corpusId, e.section, e.index, e.id, w);
    KeyBytesInjective(d.corpusId, d.section, d.id, e.corpusId, e.section, e.id);
  }

  lemma EndpointSet<S>(edges: seq<GraphEdge<S>>, c: string, ids: set<string>)
    ensures AreEndpoints(edges, c, ids) <==> ids == NodesOf(Pairs(edges, |edges|), c)
  {
    hide NodesOf, Pairs;
    forall id ensures id in NodesOf(Pairs(edges, |edges|), c) <==> exists j :: 0 <= j < |edges| && EndsAt(edges[j], c, id) {
      PairsAreEndpoints(edges, |edges|, c, id);
    }
  }

  /** The build accepts exactly the clean states. */
  lemma BuildMeans<S>(state: Stored<S>)
    requires AddressableState(state) && DistinctCorpora(state.snapshots)
    ensures Consistent(state) <==> Clean(state)
  {
    hide SnapshotOk, CleanSnapshot, Entries, EdgeOk, Recorded, NodesOf, Pairs, OnePlaceEach, DistinctKeys, Addressable,
      DistinctCorpora,
      AreEndpoints;
    forall k | 0 <= k < |state.snapshots|
      ensures SnapshotOk(state.snapshots[k].0, state.snapshots[k].1) <==> CleanSnapshot(state.snapshots[k].0, state.snapshots[k].1)
    {
      CleanSnapshotIs(state.snapshots[k].0, state.snapshots[k].1);
    }
    if forall k :: 0 <= k < |state.snapshots| ==> SnapshotOk(state.snapshots[k].0, state.snapshots[k].1) {
      KeysTellPlaces(state.snapshots);
    }
    forall j | 0 <= j < |state.edges|
      ensures EdgeOk(state.nodes, state.edges[j])
        <==> Recorded(state.nodes, state.edges[j].corpusId, state.edges[j].sourceNodeId)
             && Recorded(state.nodes, state.edges[j].corpusId, state.edges[j].targetNodeId)
    {
      EdgeIsRecorded(state.nodes, state.edges[j]);
    }
    EndpointsBounded(state.edges);
  }

  lemma EndpointsBounded<S>(edges: seq<GraphEdge<S>>)
    ensures (forall c :: |NodesOf(Pairs(edges, |edges|), c)| <= MAX_GRAPH_NODES)
      <==> forall c, ids :: AreEndpoints(edges, c, ids) ==> |ids| <= 1_500_000
  {
    hide NodesOf, Pairs, AreEndpoints;
    forall c, ids ensures AreEndpoints(edges, c, ids) <==> ids == NodesOf(Pairs(edges, |edges|), c) {
      EndpointSet(edges, c, ids);
    }
    if forall c, ids :: AreEndpoints(edges, c, ids) ==> |ids| <= 1_500_000 {
      forall c ensures |NodesOf(Pairs(edges, |edges|), c)| <= MAX_GRAPH_NODES {
        assert AreEndpoints(edges, c, NodesOf(Pairs(edges, |edges|), c));
      }
    }
  }

  // ---------- lookup and counts ----------

  /** The lookup finds `v` exactly when the corpus's snapshot holds it in that section under that id. */
  lemma LookupMeans<S>(state: Stored<S>, index: Index, endpoints: map<string, nat>, edges: map<string, nat>,
                       corpusId: string, section: string, id: string, v: Json)
    requires Describes(state, index, endpoints, edges) && AddressableState(state) && DistinctCorpora(state.snapshots)
    requires Addressable(corpusId) && Addressable(id)
    ensures Lookup(state, index, corpusId, section, id) == Some(v)
      <==> exists i: nat :: Stands(state.snapshots, corpusId, section, i, id, v)
  {
    hide Describes, KeyBytes, Addressable, AddressableState, FindSnapshot, SectionItems, ItemAt, ItemIn, ItemOk, Scan,
      Lookup, Stands;
    forall i: nat
      ensures var found := FindSnapshot(state.snapshots, corpusId, |state.snapshots|);
        Stands(state.snapshots, corpusId, section, i, id, v) <==> found.Some? && ItemAt(found.value, section, i, id, v)
    {
      StandsInFound(state.snapshots, corpusId, section, i, id, v);
    }
    LookupIsScan(state, index, endpoints, edges, corpusId, section, id);
    var found := FindSnapshot(state.snapshots, corpusId, |state.snapshots|);
    if section in SECTIONS && found.Some? {
      FoundMeans(state, index, endpoints, edges, corpusId, section, id, v, found.value);
    } else {
      if found.Some? {
        forall i: nat ensures section !in SECTIONS ==> !ItemAt(found.value, section, i, id, v) {
          NoOtherSection(section, found.value, i, id, v);
        }
      }
      NothingElsewhere(state.snapshots, corpusId, section, id);
    }
  }

  lemma StandsInFound(snapshots: seq<(string, Json)>, corpusId: string, section: string, i: nat, id: string, v: Json)
    requires DistinctCorpora(snapshots)
    ensures var found := FindSnapshot(snapshots, corpusId, |snapshots|);
      Stands(snapshots, corpusId, section, i, id, v) <==> found.Some? && ItemAt(found.value, section, i, id, v)
  {
    hide ItemAt, FindSnapshot;
    FoundIs(snapshots, corpusId);
  }

  lemma FoundMeans<S>(state: Stored<S>, index: Index, endpoints: map<string, nat>, edges: map<string, nat>,
                      corpusId: string, section: string, id: string, v: Json, snapshot: Json)
    requires Describes(state, index, endpoints, edges) && AddressableState(state) && DistinctCorpora(state.snapshots)
    requires Addressable(corpusId) && Addressable(id) && section in SECTIONS
    requires FindSnapshot(state.snapshots, corpusId, |state.snapshots|) == Some(snapshot)
    ensures Scan(state.snapshots, corpusId, section, id) == Some(v) <==> exists i: nat :: ItemAt(snapshot, section, i, id, v)
  {
    hide Describes, KeyBytes, Addressable, AddressableState, FindSnapshot, SectionItems, ItemAt, ItemIn, ItemOk, Scan;
    CurrentLookup(state, index, endpoints, edges, corpusId, section, id);
    DescribedPosition(state, index, endpoints, edges, corpusId, section, id);
    var key := KeyBytes(corpusId, section, id);
    if key in index {
      ItemIsAt(snapshot, section, index[key], id);
      var w :| ItemAt(snapshot, section, index[key], id, w);
      var at: nat := index[key];
      assert ItemAt(snapshot, section, at, id, w);
    }
    if i: nat :| ItemAt(snapshot, section, i, id, v) {
      ItemIsAt(snapshot, section, i, id);
    }
  }

  lemma NothingElsewhere(snapshots: seq<(string, Json)>, corpusId: string, section: string, id: string)
    ensures section !in SECTIONS || FindSnapshot(snapshots, corpusId, |snapshots|).None? ==>
      Scan(snapshots, corpusId, section, id).None?
  {
  }

  lemma DescribedPosition<S>(state: Stored<S>, index: Index, endpoints: map<string, nat>, edges: map<string, nat>,
                             corpusId: string, section: string, id: string)
    requires Describes(state, index, endpoints, edges) && AddressableState(state) && DistinctCorpora(state.snapshots)
    requires section in SECTIONS && Addressable(corpusId) && Addressable(id)
    ensures var key, snapshot := KeyBytes(corpusId, section, id), FindSnapshot(state.snapshots, corpusId, |state.snapshots|);
      && (key in index ==> 0 <= index[key] && snapshot.Some? && ItemIn(snapshot.value, section, index[key], id))
      && (forall i :: snapshot.Some? && ItemIn(snapshot.value, section, i, id) ==> key in index && index[key] == i)
  {
    hide ItemIn, SnapshotOk, KeyBytes, Entries, EdgeOk, EdgeCounts, NodesOf, Pairs, FindSnapshot, Addressable;
    LookupIsPosition(state, index, corpusId, section, id);
  }

  /** The counts of a catalog are the corpus's own edges and their endpoints. */
  lemma CountsMean<S>(state: Stored<S>, index: Index, endpoints: map<string, nat>, edges: map<string, nat>, c: string)
    requires Describes(state, index, endpoints, edges)
    ensures CountOf(edges, c) == OwnEdges(state.edges, c, |state.edges|)
    ensures forall ids :: AreEndpoints(state.edges, c, ids) ==> CountOf(endpoints, c) == |ids|
  {
    hide SnapshotOk, Indexed, Entries, EdgeOk, NodesOf, Pairs, CountOf, AreEndpoints;
    assert EdgeCountAt(edges, state.edges, c);
    OfCorpusSize(state.edges, c, |state.edges|);
    assert state.edges[..|state.edges|] == state.edges;
    forall ids ensures AreEndpoints(state.edges, c, ids) <==> ids == NodesOf(Pairs(state.edges, |state.edges|), c) {
      EndpointSet(state.edges, c, ids);
    }
  }

  /** How many of the first `k` edges are the corpus's. */
  function OwnEdges<S>(edges: seq<GraphEdge<S>>, c: string, k: nat): nat
    requires k <= |edges|
  {
    |set j | 0 <= j < k && edges[j].corpusId == c|
  }

  lemma OwnStep<S>(edges: seq<GraphEdge<S>>, c: string, k: nat)
    requires k < |edges|
    ensures OwnEdges(edges, c, k + 1) == OwnEdges(edges, c, k) + (if edges[k].corpusId == c then 1 else 0)
  {
    var before, now := set j | 0 <= j < k && edges[j].corpusId == c, set j | 0 <= j < k + 1 && edges[j].corpusId == c;
    if edges[k].corpusId == c {
      assert now == before + {k};
    } else {
      assert now == before;
    }
  }

  lemma {:induction false} OfCorpusSize<S>(edges: seq<GraphEdge<S>>, c: string, k: nat)
    requires k <= |edges|
    ensures |OfCorpus(edges[..k], c)| == OwnEdges(edges, c, k)
  {
    if k > 0 {
      hide OfCorpus, OwnEdges;
      OfCorpusSize(edges, c, k - 1);
      OfCorpusSnoc(edges, c, k - 1);
      OwnStep(edges, c, k - 1);
    }
  }

  lemma OfCorpusSnoc<S>(edges: seq<GraphEdge<S>>, c: string, k: nat)
    requires k < |edges|
    ensures OfCorpus(edges[..k + 1], c) == OfCorpus(edges[..k], c) + (if edges[k].corpusId == c then [edges[k]] else [])
  {
    assert edges[..k + 1] == edges[..k] + [edges[k]];
    FilterConcat((e: GraphEdge<S>) => e.corpusId == c, edges[..k], [edges[k]]);
  }
}
