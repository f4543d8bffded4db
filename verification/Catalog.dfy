/**
  The per-corpus catalog behind bounded retrieval: an index from framed keys to
  positions in the stored snapshots, and the edge and endpoint counts that admit
  ranking requests. A successful build agrees with a scan of the state itself.
 */
module Catalog {
  import opened Wrappers
  import opened Deadline
  import opened Accounting
  import opened Text
  import opened StableSort
  import opened Json
  import opened Graph
  import opened PprSpec
  import opened PprKernel

  const MAX_INDEXING_DOMAIN_ID_BYTES: nat := 4096

  // ---------- the framed key ----------

  /** `to_le_bytes` of an unsigned 64-bit length. */
  function LittleEndian(n: nat, width: nat): (r: seq<int>)
    ensures |r| == width
  {
    if width == 0 then [] else [n % 256] + LittleEndian(n / 256, width - 1)
  }

  function Frame(s: string): seq<int> {
    LittleEndian(|Utf8(s)|, 8) + Utf8(s)
  }

  /** The bytes that `bounded_index_key` digests. */
  function KeyBytes(corpusId: string, section: string, itemId: string): seq<int> {
    Frame(corpusId) + Frame(section) + Frame(itemId)
  }

  /** No string of the address space is longer than its length counter can say. */
  predicate Addressable(s: string) {
    |Utf8(s)| <= U64_MAX
  }

  function Pow256(k: nat): nat {
    if k == 0 then 1 else 256 * Pow256(k - 1)
  }

  lemma {:induction false} LittleEndianInjective(a: nat, b: nat, width: nat)
    requires a < Pow256(width) && b < Pow256(width)
    requires LittleEndian(a, width) == LittleEndian(b, width)
    ensures a == b
  {
    if width > 0 {
      var x, y := LittleEndian(a, width), LittleEndian(b, width);
      assert x[0] == y[0] && x[1..] == LittleEndian(a / 256, width - 1) && y[1..] == LittleEndian(b / 256, width - 1);
      LittleEndianInjective(a / 256, b / 256, width - 1);
    }
  }

  lemma FramePrefixFree(a: string, b: string, x: seq<int>, y: seq<int>)
    requires Addressable(a) && Addressable(b)
    requires Frame(a) + x == Frame(b) + y
    ensures a == b && x == y
  {
    var p, q := Frame(a) + x, Frame(b) + y;
    assert p[..8] == LittleEndian(|Utf8(a)|, 8) && q[..8] == LittleEndian(|Utf8(b)|, 8);
    assert Pow256(4) == 4294967296;
    assert Pow256(8) == U64_MAX + 1;
    LittleEndianInjective(|Utf8(a)|, |Utf8(b)|, 8);
    assert p[8..8 + |Utf8(a)|] == Utf8(a) && q[8..8 + |Utf8(b)|] == Utf8(b);
    Utf8Injective(a, b);
    assert p[|Frame(a)|..] == x && q[|Frame(b)|..] == y;
  }

  /** Different (corpus, section, id) triples are never framed to the same bytes. */
  lemma KeyBytesInjective(c: string, s: string, i: string, d: string, t: string, j: string)
    requires Addressable(c) && Addressable(s) && Addressable(i) && Addressable(d) && Addressable(t) && Addressable(j)
    requires KeyBytes(c, s, i) == KeyBytes(d, t, j)
    ensures c == d && s == t && i == j
  {
    hide Frame;
    assert Frame(c) + (Frame(s) + Frame(i)) == KeyBytes(c, s, i);
    assert Frame(d) + (Frame(t) + Frame(j)) == KeyBytes(d, t, j);
    FramePrefixFree(c, d, Frame(s) + Frame(i), Frame(t) + Frame(j));
    FramePrefixFree(s, t, Frame(i), Frame(j));
    assert Frame(i) + [] == Frame(i) && Frame(j) + [] == Frame(j);
    FramePrefixFree(i, j, [], []);
  }

  // ---------- the state ----------

  datatype NodeRecord = NodeRecord(nodeId: string, corpusId: string)

  /** Snapshots and edges in the order their maps are iterated. */
  datatype Stored<+S> = Stored(
    snapshots: seq<(string, Json)>,
    nodes: map<string, NodeRecord>,
    edges: seq<GraphEdge<S>>)

  /** `stored_snapshot_section_or_empty`. */
  function SectionItems(snapshot: Json, section: string): Result<seq<Json>, FailureKind> {
    var field := Get(snapshot, section);
    if field.None? then Success([])
    else if field.value.Arr? then Success(field.value.items)
    else Failure(Integrity)
  }

  function IdField(section: string): string {
    if section == "passages" then "passageId" else if section == "facts" then "factId" else "schemaId"
  }

  const SECTIONS: seq<string> := ["passages", "facts", "schemas"]

  /** `bounded_stored_domain_id`. */
  predicate DomainId(id: string) {
    id != "" && |Utf8(id)| <= MAX_INDEXING_DOMAIN_ID_BYTES
  }

  predicate ItemOk(corpusId: string, section: string, item: Json) {
    var id := GetStr(item, IdField(section));
    id.Some? && DomainId(id.value) && GetStr(item, "corpusId") == Some(corpusId)
  }

  /** An indexed item: its key and its position. */
  datatype Entry = Entry(corpusId: string, section: string, id: string, index: nat)

  function KeyOf(e: Entry): seq<int> {
    KeyBytes(e.corpusId, e.section, e.id)
  }

  /** The entries of the first `k` items of one section. */
  function ItemEntries(corpusId: string, section: string, items: seq<Json>, k: nat): seq<Entry>
    requires k <= |items|
  {
    if k == 0 then []
    else
      var id := GetStr(items[k - 1], IdField(section));
      ItemEntries(corpusId, section, items, k - 1)
      + [Entry(corpusId, section, if id.Some? then id.value else "", k - 1)]
  }

  function SectionEntries(corpusId: string, snapshot: Json, section: string): seq<Entry> {
    var items := SectionItems(snapshot, section);
    if items.Failure? then [] else ItemEntries(corpusId, section, items.value, |items.value|)
  }

  /** The entries of the first `k` sections of one snapshot. */
  function SnapshotEntries(corpusId: string, snapshot: Json, k: nat): seq<Entry>
    requires k <= |SECTIONS|
  {
    if k == 0 then [] else SnapshotEntries(corpusId, snapshot, k - 1) + SectionEntries(corpusId, snapshot, SECTIONS[k - 1])
  }

  function Entries(snapshots: seq<(string, Json)>, k: nat): seq<Entry>
    requires k <= |snapshots|
  {
    if k == 0 then []
    else Entries(snapshots, k - 1) + SnapshotEntries(snapshots[k - 1].0, snapshots[k - 1].1, |SECTIONS|)
  }

  predicate SectionOk(corpusId: string, snapshot: Json, section: string) {
    var items := SectionItems(snapshot, section);
    items.Success? && forall i :: 0 <= i < |items.value| ==> ItemOk(corpusId, section, items.value[i])
  }

  predicate SnapshotOk(corpusId: string, snapshot: Json) {
    && GetStr(snapshot, "corpusId") == Some(corpusId)
    && forall k :: 0 <= k < |SECTIONS| ==> SectionOk(corpusId, snapshot, SECTIONS[k])
  }

  predicate DistinctKeys(entries: seq<Entry>) {
    forall i, j :: 0 <= i < j < |entries| ==> KeyOf(entries[i]) != KeyOf(entries[j])
  }

  predicate EndpointOk(nodes: map<string, NodeRecord>, corpusId: string, nodeId: string) {
    && DomainId(nodeId)
    && StoreKey(corpusId, nodeId) in nodes
    && nodes[StoreKey(corpusId, nodeId)] == NodeRecord(nodeId, corpusId)
  }

  predicate EdgeOk<S>(nodes: map<string, NodeRecord>, e: GraphEdge<S>) {
    EndpointOk(nodes, e.corpusId, e.sourceNodeId) && EndpointOk(nodes, e.corpusId, e.targetNodeId)
  }

  ghost function WithNode(pairs: set<(string, string)>, corpusId: string, nodeId: string): set<(string, string)> {
    pairs + {(corpusId, nodeId)}
  }

  /** (corpus, node) pairs that are endpoints of the first `j` edges. */
  ghost function Pairs<S>(edges: seq<GraphEdge<S>>, j: nat): set<(string, string)>
    requires j <= |edges|
  {
    if j == 0 then {}
    else
      var e := edges[j - 1];
      WithNode(WithNode(Pairs(edges, j - 1), e.corpusId, e.sourceNodeId), e.corpusId, e.targetNodeId)
  }

  ghost function NodesOf(pairs: set<(string, string)>, corpusId: string): set<string> {
    set p | p in pairs && p.0 == corpusId :: p.1
  }

  /** What the build accepts: clean snapshots without duplicate ids, and a bounded graph without dangling edges. */
  ghost predicate Consistent<S>(state: Stored<S>) {
    && (forall k :: 0 <= k < |state.snapshots| ==> SnapshotOk(state.snapshots[k].0, state.snapshots[k].1))
    && DistinctKeys(Entries(state.snapshots, |state.snapshots|))
    && |state.edges| <= MAX_GRAPH_EDGES
    && (forall j :: 0 <= j < |state.edges| ==> EdgeOk(state.nodes, state.edges[j]))
    && (forall c :: |NodesOf(Pairs(state.edges, |state.edges|), c)| <= MAX_GRAPH_NODES)
  }

  // ---------- the index ----------

  type Index = map<seq<int>, int>

  /** The index maps the key of each entry to its position, and nothing else. */
  ghost predicate Indexed(index: Index, entries: seq<Entry>) {
    && DistinctKeys(entries)
    && (forall i :: 0 <= i < |entries| ==> KeyOf(entries[i]) in index && index[KeyOf(entries[i])] == entries[i].index)
    && (forall key :: key in index ==> exists i :: 0 <= i < |entries| && KeyOf(entries[i]) == key)
  }

  lemma IndexedAppend(index: Index, entries: seq<Entry>, e: Entry)
    requires Indexed(index, entries)
    ensures KeyOf(e) in index <==> !DistinctKeys(entries + [e])
    ensures KeyOf(e) !in index ==> Indexed(index[KeyOf(e) := e.index], entries + [e])
  {
    hide KeyOf;
    var all := entries + [e];
    assert all[|entries|] == e;
    if KeyOf(e) in index {
      var i :| 0 <= i < |entries| && KeyOf(entries[i]) == KeyOf(e);
      assert all[i] == entries[i];
    } else {
      var next := index[KeyOf(e) := e.index];
      forall i | 0 <= i < |entries| ensures all[i] == entries[i] && KeyOf(entries[i]) != KeyOf(e) {
      }
      forall key | key in next ensures exists i :: 0 <= i < |all| && KeyOf(all[i]) == key {
        if key == KeyOf(e) {
          assert KeyOf(all[|entries|]) == key;
        } else {
          var i :| 0 <= i < |entries| && KeyOf(entries[i]) == key;
          assert KeyOf(all[i]) == key;
        }
      }
    }
  }

  lemma PrefixKeysDistinct(some: seq<Entry>, all: seq<Entry>)
    requires some <= all && DistinctKeys(all)
    ensures DistinctKeys(some)
  {
  }

  lemma {:induction false} ItemEntriesExtend(corpusId: string, section: string, items: seq<Json>, i: nat, k: nat)
    requires i <= k <= |items|
    ensures ItemEntries(corpusId, section, items, i) <= ItemEntries(corpusId, section, items, k)
    decreases k
  {
    if i < k {
      ItemEntriesExtend(corpusId, section, items, i, k - 1);
    }
  }

  /** The first `i` items of a section are acceptable and indexed behind `before`. */
  ghost predicate SectionIndexed(index: Index, corpusId: string, section: string, items: seq<Json>, i: nat, before: seq<Entry>) {
    && i <= |items|
    && Indexed(index, before + ItemEntries(corpusId, section, items, i))
    && forall k :: 0 <= k < i ==> ItemOk(corpusId, section, items[k])
  }

  /** Why a section is refused: an unacceptable item, or a key that is already taken. */
  ghost predicate SectionRefused(corpusId: string, section: string, items: seq<Json>, before: seq<Entry>) {
    || !DistinctKeys(before + ItemEntries(corpusId, section, items, |items|))
    || exists i :: 0 <= i < |items| && !ItemOk(corpusId, section, items[i])
  }

  lemma ItemStep(index: Index, corpusId: string, section: string, items: seq<Json>, i: nat, before: seq<Entry>)
    requires i < |items| && SectionIndexed(index, corpusId, section, items, i, before)
    ensures !ItemOk(corpusId, section, items[i]) ==> SectionRefused(corpusId, section, items, before)
    ensures ItemOk(corpusId, section, items[i]) ==>
              var key := KeyBytes(corpusId, section, GetStr(items[i], IdField(section)).value);
              if key in index then SectionRefused(corpusId, section, items, before)
              else SectionIndexed(index[key := i], corpusId, section, items, i + 1, before)
  {
    hide Indexed, DistinctKeys, KeyBytes, DomainId;
    if ItemOk(corpusId, section, items[i]) {
      var e := Entry(corpusId, section, GetStr(items[i], IdField(section)).value, i);
      var soFar := before + ItemEntries(corpusId, section, items, i);
      assert soFar + [e] == before + ItemEntries(corpusId, section, items, i + 1);
      IndexedAppend(index, soFar, e);
      if KeyOf(e) in index {
        KeyTaken(corpusId, section, items, i, before);
      }
    }
  }

  lemma KeyTaken(corpusId: string, section: string, items: seq<Json>, i: nat, before: seq<Entry>)
    requires i < |items| && !DistinctKeys(before + ItemEntries(corpusId, section, items, i + 1))
    ensures SectionRefused(corpusId, section, items, before)
  {
    hide DistinctKeys;
    var some, all := before + ItemEntries(corpusId, section, items, i + 1), before + ItemEntries(corpusId, section, items, |items|);
    ItemEntriesExtend(corpusId, section, items, i + 1, |items|);
    if DistinctKeys(all) {
      PrefixKeysDistinct(some, all);
    }
  }

  method IndexSection(index: Index, corpusId: string, section: string, items: seq<Json>, ghost before: seq<Entry>)
    returns (r: Result<Index, FailureKind>)
    requires Indexed(index, before)
    ensures r.Success? ==> SectionIndexed(r.value, corpusId, section, items, |items|, before)
    ensures r.Failure? ==> SectionRefused(corpusId, section, items, before)
  {
    var built := index;
    assert before + [] == before;
    for i := 0 to |items|
      invariant SectionIndexed(built, corpusId, section, items, i, before)
    {
      ItemStep(built, corpusId, section, items, i, before);
      hide SectionIndexed, SectionRefused, KeyBytes;
      var id := GetStr(items[i], IdField(section));
      if id.None? || !DomainId(id.value) || GetStr(items[i], "corpusId") != Some(corpusId) {
        return Failure(Integrity);
      }
      var key := KeyBytes(corpusId, section, id.value);
      if key in built {
        return Failure(Integrity);
      }
      built := built[key := i];
    }
    return Success(built);
  }

  lemma {:induction false} SnapshotEntriesExtend(corpusId: string, snapshot: Json, i: nat, k: nat)
    requires i <= k <= |SECTIONS|
    ensures SnapshotEntries(corpusId, snapshot, i) <= SnapshotEntries(corpusId, snapshot, k)
    decreases k
  {
    if i < k {
      SnapshotEntriesExtend(corpusId, snapshot, i, k - 1);
    }
  }

  lemma {:induction false} EntriesExtend(snapshots: seq<(string, Json)>, i: nat, k: nat)
    requires i <= k <= |snapshots|
    ensures Entries(snapshots, i) <= Entries(snapshots, k)
    decreases k
  {
    if i < k {
      EntriesExtend(snapshots, i, k - 1);
    }
  }

  ghost predicate SnapshotIndexed(index: Index, corpusId: string, snapshot: Json, k: nat, before: seq<Entry>) {
    && k <= |SECTIONS|
    && Indexed(index, before + SnapshotEntries(corpusId, snapshot, k))
    && forall j :: 0 <= j < k ==> SectionOk(corpusId, snapshot, SECTIONS[j])
  }

  ghost predicate SnapshotRefused(corpusId: string, snapshot: Json, before: seq<Entry>) {
    !SnapshotOk(corpusId, snapshot) || !DistinctKeys(before + SnapshotEntries(corpusId, snapshot, |SECTIONS|))
  }

  lemma SectionFails(corpusId: string, snapshot: Json, k: nat, before: seq<Entry>)
    requires k < |SECTIONS|
    ensures SectionItems(snapshot, SECTIONS[k]).Failure? ==> SnapshotRefused(corpusId, snapshot, before)
    ensures var items := SectionItems(snapshot, SECTIONS[k]);
      items.Success? && SectionRefused(corpusId, SECTIONS[k], items.value, before + SnapshotEntries(corpusId, snapshot, k))
      ==> SnapshotRefused(corpusId, snapshot, before)
  {
    hide DistinctKeys, ItemOk, ItemEntries;
    var items := SectionItems(snapshot, SECTIONS[k]);
    if SnapshotOk(corpusId, snapshot) && items.Success? {
      assert SectionOk(corpusId, snapshot, SECTIONS[k]);
      var some := before + SnapshotEntries(corpusId, snapshot, k);
      assert some + SectionEntries(corpusId, snapshot, SECTIONS[k]) == before + SnapshotEntries(corpusId, snapshot, k + 1);
      SnapshotEntriesExtend(corpusId, snapshot, k + 1, |SECTIONS|);
      if DistinctKeys(before + SnapshotEntries(corpusId, snapshot, |SECTIONS|)) {
        PrefixKeysDistinct(before + SnapshotEntries(corpusId, snapshot, k + 1),
          before + SnapshotEntries(corpusId, snapshot, |SECTIONS|));
      }
    }
  }

  lemma SectionSucceeds(index: Index, corpusId: string, snapshot: Json, k: nat, before: seq<Entry>, was: Index)
    requires k < |SECTIONS| && SnapshotIndexed(was, corpusId, snapshot, k, before)
    requires var items := SectionItems(snapshot, SECTIONS[k]);
      && items.Success?
      && SectionIndexed(index, corpusId, SECTIONS[k], items.value, |items.value|, before + SnapshotEntries(corpusId, snapshot, k))
    ensures SnapshotIndexed(index, corpusId, snapshot, k + 1, before)
  {
    hide Indexed, ItemOk, ItemEntries;
    assert before + SnapshotEntries(corpusId, snapshot, k) + SectionEntries(corpusId, snapshot, SECTIONS[k])
        == before + SnapshotEntries(corpusId, snapshot, k + 1);
  }

  /** The three sections of one snapshot. */
  method IndexSnapshot(index: Index, corpusId: string, snapshot: Json, ghost before: seq<Entry>)
    returns (r: Result<Index, FailureKind>)
    requires Indexed(index, before)
    ensures r.Success? ==> SnapshotOk(corpusId, snapshot) && SnapshotIndexed(r.value, corpusId, snapshot, |SECTIONS|, before)
    ensures r.Failure? ==> SnapshotRefused(corpusId, snapshot, before)
  {
    if GetStr(snapshot, "corpusId") != Some(corpusId) {
      return Failure(Integrity);
    }
    var built := index;
    assert before + [] == before;
    assert SnapshotIndexed(built, corpusId, snapshot, 0, before);
    hide Indexed, SnapshotRefused, SectionIndexed, SectionRefused, SnapshotEntries, SectionOk;
    for k := 0 to |SECTIONS|
      invariant SnapshotIndexed(built, corpusId, snapshot, k, before)
    {
      SectionFails(corpusId, snapshot, k, before);
      var items :- SectionItems(snapshot, SECTIONS[k]);
      var next := IndexSection(built, corpusId, SECTIONS[k], items, before + SnapshotEntries(corpusId, snapshot, k));
      if next.Failure? {
        return next;
      }
      SectionSucceeds(next.value, corpusId, snapshot, k, before, built);
      built := next.value;
    }
    return Success(built);
  }

  ghost predicate SnapshotsIndexed(index: Index, snapshots: seq<(string, Json)>, k: nat) {
    && k <= |snapshots|
    && Indexed(index, Entries(snapshots, k))
    && forall j :: 0 <= j < k ==> SnapshotOk(snapshots[j].0, snapshots[j].1)
  }

  ghost predicate SnapshotsRefused(snapshots: seq<(string, Json)>) {
    || !DistinctKeys(Entries(snapshots, |snapshots|))
    || exists j :: 0 <= j < |snapshots| && !SnapshotOk(snapshots[j].0, snapshots[j].1)
  }

  lemma SnapshotFails(snapshots: seq<(string, Json)>, k: nat)
    requires k < |snapshots| && SnapshotRefused(snapshots[k].0, snapshots[k].1, Entries(snapshots, k))
    ensures SnapshotsRefused(snapshots)
  {
    EntriesExtend(snapshots, k + 1, |snapshots|);
    if DistinctKeys(Entries(snapshots, |snapshots|)) {
      PrefixKeysDistinct(Entries(snapshots, k + 1), Entries(snapshots, |snapshots|));
    }
  }

  lemma IndexOfSnapshots(index: Index, snapshots: seq<(string, Json)>, k: nat)
    requires SnapshotsIndexed(index, snapshots, k)
    ensures k <= |snapshots| && Indexed(index, Entries(snapshots, k))
  {
  }

  lemma SnapshotSucceeds(index: Index, snapshots: seq<(string, Json)>, k: nat, was: Index)
    requires k < |snapshots| && SnapshotsIndexed(was, snapshots, k)
    requires SnapshotOk(snapshots[k].0, snapshots[k].1)
    requires SnapshotIndexed(index, snapshots[k].0, snapshots[k].1, |SECTIONS|, Entries(snapshots, k))
    ensures SnapshotsIndexed(index, snapshots, k + 1)
  {
    hide Indexed, SnapshotOk, SnapshotEntries;
  }

  method IndexNext(index: Index, snapshots: seq<(string, Json)>, k: nat) returns (r: Result<Index, FailureKind>)
    requires k < |snapshots| && SnapshotsIndexed(index, snapshots, k)
    ensures r.Success? ==> SnapshotsIndexed(r.value, snapshots, k + 1)
    ensures r.Failure? ==> SnapshotsRefused(snapshots)
  {
    hide SnapshotsIndexed, SnapshotsRefused, Indexed, SnapshotOk, SnapshotIndexed, SnapshotRefused, Entries;
    IndexOfSnapshots(index, snapshots, k);
    r := IndexSnapshot(index, snapshots[k].0, snapshots[k].1, Entries(snapshots, k));
    if r.Failure? {
      SnapshotFails(snapshots, k);
    } else {
      SnapshotSucceeds(r.value, snapshots, k, index);
    }
  }

  lemma NothingIndexed(snapshots: seq<(string, Json)>)
    ensures SnapshotsIndexed(map[], snapshots, 0)
  {
  }

  method IndexSnapshots(snapshots: seq<(string, Json)>) returns (r: Result<Index, FailureKind>)
    ensures r.Success? ==> SnapshotsIndexed(r.value, snapshots, |snapshots|)
    ensures r.Failure? ==> SnapshotsRefused(snapshots)
  {
    hide SnapshotsIndexed, SnapshotsRefused;
    var built: Index := map[];
    NothingIndexed(snapshots);
    for k := 0 to |snapshots|
      invariant SnapshotsIndexed(built, snapshots, k)
    {
      built :- IndexNext(built, snapshots, k);
    }
    return Success(built);
  }

  // ---------- the counts ----------

  function CountOf(counts: map<string, nat>, corpusId: string): nat {
    if corpusId in counts then counts[corpusId] else 0
  }

  /** The seen keys and the endpoint counts describe exactly the given pairs. */
  ghost predicate PairsCounted(seen: set<seq<int>>, counts: map<string, nat>, pairs: set<(string, string)>) {
    && (forall p :: p in pairs ==> KeyBytes(p.0, "nodes", p.1) in seen)
    && (forall key :: key in seen ==> exists p :: p in pairs && KeyBytes(p.0, "nodes", p.1) == key)
    && (forall c :: CountOf(counts, c) == |NodesOf(pairs, c)| <= MAX_GRAPH_NODES)
  }

  ghost predicate AddressablePairs(pairs: set<(string, string)>) {
    forall p :: p in pairs ==> Addressable(p.0) && Addressable(p.1)
  }

  lemma NodesOfAdd(pairs: set<(string, string)>, p: (string, string), c: string)
    ensures NodesOf(WithNode(pairs, p.0, p.1), c) == if c == p.0 then NodesOf(pairs, c) + {p.1} else NodesOf(pairs, c)
    ensures p !in pairs ==> p.1 !in NodesOf(pairs, p.0)
  {
    var all := WithNode(pairs, p.0, p.1);
    assert p == (p.0, p.1);
    forall id ensures id in NodesOf(all, c) <==> id in NodesOf(pairs, c) || (c == p.0 && id == p.1) {
      if id in NodesOf(pairs, c) {
        assert (c, id) in all;
      }
      if c == p.0 && id == p.1 {
        assert p in all;
      }
    }
    if p.1 in NodesOf(pairs, p.0) {
      var q :| q in pairs && q.0 == p.0 && q.1 == p.1;
      assert q == p;
    }
  }

  /** The key is new exactly when the pair is. */
  lemma KeySeen(seen: set<seq<int>>, counts: map<string, nat>, pairs: set<(string, string)>, c: string, id: string)
    requires PairsCounted(seen, counts, pairs) && AddressablePairs(pairs) && Addressable(c) && Addressable(id)
    ensures KeyBytes(c, "nodes", id) in seen <==> (c, id) in pairs
  {
    hide KeyBytes, NodesOf, Addressable;
    var p := (c, id);
    if p in pairs {
      assert KeyBytes(p.0, "nodes", p.1) in seen;
    }
    if KeyBytes(c, "nodes", id) in seen {
      var q :| q in pairs && KeyBytes(q.0, "nodes", q.1) == KeyBytes(c, "nodes", id);
      NodesAddressable();
      KeyBytesInjective(q.0, "nodes", q.1, c, "nodes", id);
      assert q == p;
    }
  }

  /** A new pair raises one count by one. */
  lemma NewPair(seen: set<seq<int>>, counts: map<string, nat>, pairs: set<(string, string)>, c: string, id: string)
    requires PairsCounted(seen, counts, pairs) && (c, id) !in pairs && CountOf(counts, c) < MAX_GRAPH_NODES
    ensures PairsCounted(seen + {KeyBytes(c, "nodes", id)}, counts[c := CountOf(counts, c) + 1], WithNode(pairs, c, id))
  {
    hide KeyBytes, NodesOf;
    var p, all, key := (c, id), WithNode(pairs, c, id), KeyBytes(c, "nodes", id);
    forall d ensures CountOf(counts[c := CountOf(counts, c) + 1], d) == |NodesOf(all, d)| <= MAX_GRAPH_NODES {
      assert CountOf(counts, d) == |NodesOf(pairs, d)| <= MAX_GRAPH_NODES;
      NodesOfAdd(pairs, p, d);
    }
    forall k | k in seen + {key} ensures exists q :: q in all && KeyBytes(q.0, "nodes", q.1) == k {
      if k == key {
        assert KeyBytes(p.0, "nodes", p.1) == k;
      } else {
        var q :| q in pairs && KeyBytes(q.0, "nodes", q.1) == k;
        assert q in all;
      }
    }
  }

  lemma NodesAddressable()
    ensures Addressable("nodes")
  {
    var s := "nodes";
    assert s[1..] == "odes" && s[1..][1..] == "des" && s[1..][1..][1..] == "es" && s[1..][1..][1..][1..] == "s";
    assert Utf8("s") == Utf8Bytes('s') + Utf8([]);
  }

  lemma NodesOfMonotone(some: set<(string, string)>, all: set<(string, string)>, c: string)
    requires some <= all
    ensures |NodesOf(some, c)| <= |NodesOf(all, c)|
  {
    SubsetSize(NodesOf(some, c), NodesOf(all, c));
  }

  /** The endpoints seen so far, by framed key, and how many each corpus has. */
  datatype Ends = Ends(seen: set<seq<int>>, counts: map<string, nat>)

  ghost predicate EndsCounted(ends: Ends, pairs: set<(string, string)>) {
    PairsCounted(ends.seen, ends.counts, pairs) && AddressablePairs(pairs)
  }

  ghost predicate EndRefused(nodes: map<string, NodeRecord>, corpusId: string, nodeId: string, pairs: set<(string, string)>) {
    !EndpointOk(nodes, corpusId, nodeId) || |NodesOf(WithNode(pairs, corpusId, nodeId), corpusId)| > MAX_GRAPH_NODES
  }

  /** What the key test and the count test of one endpoint mean. */
  lemma EndStep(ends: Ends, pairs: set<(string, string)>, corpusId: string, nodeId: string)
    requires EndsCounted(ends, pairs) && Addressable(corpusId) && Addressable(nodeId)
    ensures var key, count, all := KeyBytes(corpusId, "nodes", nodeId), CountOf(ends.counts, corpusId) + 1,
      WithNode(pairs, corpusId, nodeId);
      if key in ends.seen then EndsCounted(ends, all)
      else if count > MAX_GRAPH_NODES then |NodesOf(all, corpusId)| > MAX_GRAPH_NODES
      else EndsCounted(Ends(ends.seen + {key}, ends.counts[corpusId := count]), all)
  {
    var all := WithNode(pairs, corpusId, nodeId);
    hide PairsCounted, KeyBytes, NodesOf, Addressable, AddressablePairs;
    KeySeen(ends.seen, ends.counts, pairs, corpusId, nodeId);
    AddressableAdd(pairs, corpusId, nodeId);
    CountIs(ends, pairs, corpusId);
    if (corpusId, nodeId) in pairs {
      assert all == pairs;
    } else if CountOf(ends.counts, corpusId) + 1 <= MAX_GRAPH_NODES {
      NewPair(ends.seen, ends.counts, pairs, corpusId, nodeId);
    } else {
      NodesOfAdd(pairs, (corpusId, nodeId), corpusId);
    }
  }

  lemma AddressableAdd(pairs: set<(string, string)>, corpusId: string, nodeId: string)
    requires AddressablePairs(pairs) && Addressable(corpusId) && Addressable(nodeId)
    ensures AddressablePairs(WithNode(pairs, corpusId, nodeId))
  {
    hide Addressable;
  }

  lemma CountIs(ends: Ends, pairs: set<(string, string)>, corpusId: string)
    requires PairsCounted(ends.seen, ends.counts, pairs)
    ensures CountOf(ends.counts, corpusId) == |NodesOf(pairs, corpusId)|
  {
  }

  /** One endpoint of one edge: its record must exist, and a new one is counted. */
  method CountEndpoint(nodes: map<string, NodeRecord>, corpusId: string, nodeId: string, ends: Ends,
                       ghost pairs: set<(string, string)>)
    returns (r: Result<Ends, FailureKind>)
    requires EndsCounted(ends, pairs) && Addressable(corpusId)
    ensures r.Success? ==> EndpointOk(nodes, corpusId, nodeId) && EndsCounted(r.value, WithNode(pairs, corpusId, nodeId))
    ensures r.Failure? ==> EndRefused(nodes, corpusId, nodeId, pairs)
  {
    hide EndsCounted, KeyBytes, NodesOf, StoreKey;
    if !DomainId(nodeId) || StoreKey(corpusId, nodeId) !in nodes {
      return Failure(Integrity);
    }
    var node := nodes[StoreKey(corpusId, nodeId)];
    if node.corpusId != corpusId || node.nodeId != nodeId {
      return Failure(Integrity);
    }
    EndStep(ends, pairs, corpusId, nodeId);
    var key := KeyBytes(corpusId, "nodes", nodeId);
    if key in ends.seen {
      return Success(ends);
    }
    var count := CountOf(ends.counts, corpusId) + 1;
    if count > MAX_GRAPH_NODES {
      return Failure(ResourceLimit);
    }
    return Success(Ends(ends.seen + {key}, ends.counts[corpusId := count]));
  }

  // ---------- the whole build ----------

  ghost predicate EdgeCountAt<S>(counts: map<string, nat>, edges: seq<GraphEdge<S>>, corpusId: string) {
    CountOf(counts, corpusId) == |OfCorpus(edges, corpusId)|
  }

  ghost predicate EdgeCounts<S>(counts: map<string, nat>, edges: seq<GraphEdge<S>>) {
    forall c :: EdgeCountAt(counts, edges, c)
  }

  /** The first `j` edges have existing endpoints and are counted by corpus. */
  ghost predicate EdgesCounted<S>(state: Stored<S>, j: nat, ends: Ends, counts: map<string, nat>) {
    && j <= |state.edges|
    && EndsCounted(ends, Pairs(state.edges, j))
    && EdgeCounts(counts, state.edges[..j])
    && (forall i :: 0 <= i < j ==> EdgeOk(state.nodes, state.edges[i]))
  }

  ghost predicate EdgesRefused<S>(state: Stored<S>) {
    || (exists j :: 0 <= j < |state.edges| && !EdgeOk(state.nodes, state.edges[j]))
    || (exists corpus :: |NodesOf(Pairs(state.edges, |state.edges|), corpus)| > MAX_GRAPH_NODES)
  }

  ghost predicate AddressableState<S>(state: Stored<S>) {
    && (forall j :: 0 <= j < |state.edges| ==> Addressable(state.edges[j].corpusId))
    && (forall k :: 0 <= k < |state.snapshots| ==> Addressable(state.snapshots[k].0))
  }

  lemma {:induction false} PairsGrow<S>(edges: seq<GraphEdge<S>>, i: nat, j: nat)
    requires i <= j <= |edges|
    ensures Pairs(edges, i) <= Pairs(edges, j)
    decreases j
  {
    if i < j {
      PairsGrow(edges, i, j - 1);
    }
  }

  /** A refused endpoint of edge `j` refuses the whole build. */
  lemma EndFails<S>(state: Stored<S>, j: nat, some: set<(string, string)>, nodeId: string)
    requires j < |state.edges|
    requires nodeId == state.edges[j].sourceNodeId || nodeId == state.edges[j].targetNodeId
    requires WithNode(some, state.edges[j].corpusId, nodeId) <= Pairs(state.edges, j + 1)
    requires EndRefused(state.nodes, state.edges[j].corpusId, nodeId, some)
    ensures EdgesRefused(state)
  {
    hide NodesOf, EndpointOk;
    var corpusId := state.edges[j].corpusId;
    if EndpointOk(state.nodes, corpusId, nodeId) {
      PairsGrow(state.edges, j + 1, |state.edges|);
      NodesOfMonotone(WithNode(some, corpusId, nodeId), Pairs(state.edges, |state.edges|), corpusId);
    } else {
      assert !EdgeOk(state.nodes, state.edges[j]);
    }
  }

  lemma CountStep<S>(edges: seq<GraphEdge<S>>, counts: map<string, nat>, j: nat)
    requires j < |edges| && EdgeCounts(counts, edges[..j])
    ensures EdgeCounts(counts[edges[j].corpusId := CountOf(counts, edges[j].corpusId) + 1], edges[..j + 1])
  {
    var own, next := edges[j].corpusId, edges[..j + 1];
    var after := counts[own := CountOf(counts, own) + 1];
    forall c ensures EdgeCountAt(after, next, c) {
      assert next == edges[..j] + [edges[j]];
      FilterConcat((e: GraphEdge<S>) => e.corpusId == c, edges[..j], [edges[j]]);
      assert EdgeCountAt(counts, edges[..j], c);
    }
  }

  lemma PairsNext<S>(edges: seq<GraphEdge<S>>, j: nat)
    requires j < |edges|
    ensures var e := edges[j];
      var withSource := WithNode(Pairs(edges, j), e.corpusId, e.sourceNodeId);
      withSource <= Pairs(edges, j + 1) == WithNode(withSource, e.corpusId, e.targetNodeId)
  {
  }

  lemma EdgeSucceeds<S>(state: Stored<S>, j: nat, was: Ends, counts: map<string, nat>, ends: Ends)
    requires j < |state.edges| && EdgesCounted(state, j, was, counts)
    requires EdgeOk(state.nodes, state.edges[j])
    requires var e := state.edges[j];
      EndsCounted(ends, WithNode(WithNode(Pairs(state.edges, j), e.corpusId, e.sourceNodeId), e.corpusId, e.targetNodeId))
    ensures var own := state.edges[j].corpusId;
      EdgesCounted(state, j + 1, ends, counts[own := CountOf(counts, own) + 1])
  {
    hide EndsCounted, EdgeCounts, EdgeOk, CountOf, Pairs, WithNode;
    PairsNext(state.edges, j);
    CountStep(state.edges, counts, j);
  }

  /** Both endpoints of one edge, then the edge itself. */
  method CountEdge<S>(state: Stored<S>, j: nat, ends: Ends, counts: map<string, nat>)
    returns (r: Result<(Ends, map<string, nat>), FailureKind>)
    requires AddressableState(state) && j < |state.edges| && EdgesCounted(state, j, ends, counts)
    ensures r.Success? ==> EdgesCounted(state, j + 1, r.value.0, r.value.1)
    ensures r.Failure? ==> EdgesRefused(state)
  {
    hide EndsCounted, EndpointOk, CountOf, EdgeCounts, Addressable, EndRefused, EdgesRefused, Pairs, WithNode;
    var e := state.edges[j];
    ghost var pairs := Pairs(state.edges, j);
    PairsNext(state.edges, j);
    var source := CountEndpoint(state.nodes, e.corpusId, e.sourceNodeId, ends, pairs);
    if source.Failure? {
      EndFails(state, j, pairs, e.sourceNodeId);
      return Failure(source.error);
    }
    ghost var withSource := WithNode(pairs, e.corpusId, e.sourceNodeId);
    var target := CountEndpoint(state.nodes, e.corpusId, e.targetNodeId, source.value, withSource);
    if target.Failure? {
      EndFails(state, j, withSource, e.targetNodeId);
      return Failure(target.error);
    }
    EdgeSucceeds(state, j, ends, counts, target.value);
    var count := CountOf(counts, e.corpusId) + 1;
    return Success((target.value, counts[e.corpusId := count]));
  }

  method CountEdges<S>(state: Stored<S>) returns (r: Result<(Ends, map<string, nat>), FailureKind>)
    requires AddressableState(state)
    ensures r.Success? ==> EdgesCounted(state, |state.edges|, r.value.0, r.value.1)
    ensures r.Failure? ==> EdgesRefused(state)
  {
    var ends, counts: map<string, nat> := Ends({}, map[]), map[];
    NothingCounted(state);
    hide EdgesCounted, EdgesRefused, AddressableState;
    for j := 0 to |state.edges|
      invariant EdgesCounted(state, j, ends, counts)
    {
      var next := CountEdge(state, j, ends, counts);
      if next.Failure? {
        return next;
      }
      ends, counts := next.value.0, next.value.1;
    }
    return Success((ends, counts));
  }

  lemma NothingCounted<S>(state: Stored<S>)
    ensures EdgesCounted(state, 0, Ends({}, map[]), map[])
  {
    var none := state.edges[..0];
    forall c ensures EdgeCountAt(map[], none, c) {
      assert none == [];
    }
  }

  // ---------- entries and items ----------

  /** Item `i` of a section, as the scan over the section sees it. */
  ghost predicate ItemIn(snapshot: Json, section: string, i: nat, id: string) {
    var items := SectionItems(snapshot, section);
    items.Success? && i < |items.value| && GetStr(items.value[i], IdField(section)) == Some(id)
  }

  lemma InAppend(entries: seq<Entry>, last: Entry, e: Entry)
    ensures e in entries + [last] <==> e in entries || e == last
  {
  }

  lemma ItemOkHasId(corpusId: string, section: string, item: Json)
    requires ItemOk(corpusId, section, item)
    ensures GetStr(item, IdField(section)).Some?
  {
  }

  lemma {:induction false} ItemEntriesAre(corpusId: string, section: string, items: seq<Json>, k: nat, e: Entry)
    requires k <= |items| && forall i :: 0 <= i < k ==> ItemOk(corpusId, section, items[i])
    ensures e in ItemEntries(corpusId, section, items, k) <==>
      e.corpusId == corpusId && e.section == section && e.index < k && GetStr(items[e.index], IdField(section)) == Some(e.id)
  {
    hide ItemOk, IdField;
    if k > 0 {
      ItemEntriesAre(corpusId, section, items, k - 1, e);
      ItemOkHasId(corpusId, section, items[k - 1]);
      var last := Entry(corpusId, section, GetStr(items[k - 1], IdField(section)).value, k - 1);
      InAppend(ItemEntries(corpusId, section, items, k - 1), last, e);
    }
  }

  lemma SectionEntriesAre(corpusId: string, snapshot: Json, section: string, e: Entry)
    requires SectionOk(corpusId, snapshot, section)
    ensures e in SectionEntries(corpusId, snapshot, section) <==>
      e.corpusId == corpusId && e.section == section && ItemIn(snapshot, section, e.index, e.id)
  {
    var items := SectionItems(snapshot, section).value;
    ItemEntriesAre(corpusId, section, items, |items|, e);
  }

  lemma SnapshotEntriesAre(corpusId: string, snapshot: Json, e: Entry)
    requires SnapshotOk(corpusId, snapshot)
    ensures e in SnapshotEntries(corpusId, snapshot, |SECTIONS|) <==>
      e.corpusId == corpusId && e.section in SECTIONS && ItemIn(snapshot, e.section, e.index, e.id)
  {
    hide SectionOk, SectionEntries, ItemIn;
    assert SectionOk(corpusId, snapshot, SECTIONS[0]) && SectionOk(corpusId, snapshot, SECTIONS[1])
        && SectionOk(corpusId, snapshot, SECTIONS[2]);
    SectionEntriesAre(corpusId, snapshot, SECTIONS[0], e);
    SectionEntriesAre(corpusId, snapshot, SECTIONS[1], e);
    SectionEntriesAre(corpusId, snapshot, SECTIONS[2], e);
    assert SnapshotEntries(corpusId, snapshot, 3) == SnapshotEntries(corpusId, snapshot, 2)
      + SectionEntries(corpusId, snapshot, SECTIONS[2]);
    assert SnapshotEntries(corpusId, snapshot, 2) == SnapshotEntries(corpusId, snapshot, 1)
      + SectionEntries(corpusId, snapshot, SECTIONS[1]);
    assert SnapshotEntries(corpusId, snapshot, 1) == SnapshotEntries(corpusId, snapshot, 0)
      + SectionEntries(corpusId, snapshot, SECTIONS[0]);
  }

  /** `snapshots.get(corpus_id)`. */
  function FindSnapshot(snapshots: seq<(string, Json)>, corpusId: string, k: nat): Option<Json>
    requires k <= |snapshots|
  {
    if k == 0 then None
    else if snapshots[k - 1].0 == corpusId then Some(snapshots[k - 1].1)
    else FindSnapshot(snapshots, corpusId, k - 1)
  }

  predicate DistinctCorpora(snapshots: seq<(string, Json)>) {
    forall i, j :: 0 <= i < j < |snapshots| ==> snapshots[i].0 != snapshots[j].0
  }

  lemma {:induction false} EntriesAre(snapshots: seq<(string, Json)>, k: nat, e: Entry)
    requires k <= |snapshots| && DistinctCorpora(snapshots)
    requires forall j :: 0 <= j < k ==> SnapshotOk(snapshots[j].0, snapshots[j].1)
    ensures var found := FindSnapshot(snapshots, e.corpusId, k);
      e in Entries(snapshots, k) <==> found.Some? && e.section in SECTIONS && ItemIn(found.value, e.section, e.index, e.id)
  {
    hide SnapshotOk, SnapshotEntries, ItemIn;
    if k > 0 {
      EntriesAre(snapshots, k - 1, e);
      SnapshotEntriesAre(snapshots[k - 1].0, snapshots[k - 1].1, e);
      if snapshots[k - 1].0 == e.corpusId {
        NotFound(snapshots, e.corpusId, k - 1);
      }
    }
  }

  lemma {:induction false} NotFound(snapshots: seq<(string, Json)>, corpusId: string, k: nat)
    requires k <= |snapshots| && forall j :: 0 <= j < k ==> snapshots[j].0 != corpusId
    ensures FindSnapshot(snapshots, corpusId, k).None?
  {
    if k > 0 {
      NotFound(snapshots, corpusId, k - 1);
    }
  }

  // ---------- what a successful build says ----------

  /** The catalog's three tables describe the state. */
  ghost predicate Describes<S>(state: Stored<S>, index: Index, endpoints: map<string, nat>, edges: map<string, nat>) {
    && (forall k :: 0 <= k < |state.snapshots| ==> SnapshotOk(state.snapshots[k].0, state.snapshots[k].1))
    && Indexed(index, Entries(state.snapshots, |state.snapshots|))
    && |state.edges| <= MAX_GRAPH_EDGES
    && (forall j :: 0 <= j < |state.edges| ==> EdgeOk(state.nodes, state.edges[j]))
    && (forall c :: CountOf(endpoints, c) == |NodesOf(Pairs(state.edges, |state.edges|), c)| <= MAX_GRAPH_NODES)
    && EdgeCounts(edges, state.edges)
  }

  lemma {:induction false} PairsAreEndpoints<S>(edges: seq<GraphEdge<S>>, j: nat, c: string, id: string)
    requires j <= |edges|
    ensures id in NodesOf(Pairs(edges, j), c) <==> (c, id) in Pairs(edges, j)
    ensures (c, id) in Pairs(edges, j) <==>
      exists i :: 0 <= i < j && edges[i].corpusId == c && (edges[i].sourceNodeId == id || edges[i].targetNodeId == id)
  {
    var pairs := Pairs(edges, j);
    if id in NodesOf(pairs, c) {
      var p :| p in pairs && p.0 == c && p.1 == id;
      assert p == (c, id);
    }
    if j > 0 {
      PairsAreEndpoints(edges, j - 1, c, id);
      var e := edges[j - 1];
      assert (c, id) in pairs <==>
        (c, id) in Pairs(edges, j - 1) || (c, id) == (e.corpusId, e.sourceNodeId) || (c, id) == (e.corpusId, e.targetNodeId);
    }
  }

  lemma {:induction false} OfCorpusMembers<S>(edges: seq<GraphEdge<S>>, c: string, e: GraphEdge<S>)
    ensures e in OfCorpus(edges, c) <==> e in edges && e.corpusId == c
  {
    if edges != [] {
      OfCorpusMembers(edges[1..], c, e);
      assert edges == [edges[0]] + edges[1..];
    }
  }

  lemma EndpointOfCorpus<S>(edges: seq<GraphEdge<S>>, c: string, i: nat, id: string)
    requires i < |edges| && edges[i].corpusId == c && (edges[i].sourceNodeId == id || edges[i].targetNodeId == id)
    ensures id in Endpoints(Triples(OfCorpus(edges, c)))
  {
    hide OfCorpus;
    var own, triples := OfCorpus(edges, c), Triples(OfCorpus(edges, c));
    OfCorpusMembers(edges, c, edges[i]);
    var k :| 0 <= k < |own| && own[k] == edges[i];
    assert triples[k] == TripleOf(edges[i]) && triples[k] in triples;
  }

  lemma EndpointHasEdge<S>(edges: seq<GraphEdge<S>>, c: string, id: string)
    requires id in Endpoints(Triples(OfCorpus(edges, c)))
    ensures exists i ::
      0 <= i < |edges| && edges[i].corpusId == c && (edges[i].sourceNodeId == id || edges[i].targetNodeId == id)
  {
    hide OfCorpus;
    var own, triples := OfCorpus(edges, c), Triples(OfCorpus(edges, c));
    var t :| t in triples && (t.source == id || t.target == id);
    var k :| 0 <= k < |triples| && triples[k] == t;
    OfCorpusMembers(edges, c, own[k]);
    var i :| 0 <= i < |edges| && edges[i] == own[k];
  }

  lemma EndpointsOfCorpus<S>(edges: seq<GraphEdge<S>>, c: string)
    ensures NodesOf(Pairs(edges, |edges|), c) == Endpoints(Triples(OfCorpus(edges, c)))
  {
    hide NodesOf, Pairs, Endpoints, Triples, OfCorpus;
    var counted, own := NodesOf(Pairs(edges, |edges|), c), Endpoints(Triples(OfCorpus(edges, c)));
    forall id ensures id in counted <==> id in own {
      PairsAreEndpoints(edges, |edges|, c, id);
      if id in counted {
        var i :| 0 <= i < |edges| && edges[i].corpusId == c && (edges[i].sourceNodeId == id || edges[i].targetNodeId == id);
        EndpointOfCorpus(edges, c, i, id);
      }
      if id in own {
        EndpointHasEdge(edges, c, id);
      }
    }
  }

  /** The counts of a freshly catalogued state are what ranking requests are admitted on. */
  lemma CatalogAdmitsRanking<S>(state: Stored<S>, index: Index, endpoints: map<string, nat>, edges: map<string, nat>, c: string)
    requires Describes(state, index, endpoints, edges)
    ensures Catalogued(state.edges, c, CountOf(endpoints, c), CountOf(edges, c))
  {
    EndpointsOfCorpus(state.edges, c);
    assert EdgeCountAt(edges, state.edges, c);
  }

  // ---------- lookup ----------

  /** A scan of the section itself: the first item with the id. */
  function ScanItems(items: seq<Json>, section: string, id: string): Option<Json> {
    if items == [] then None
    else if GetStr(items[0], IdField(section)) == Some(id) then Some(items[0])
    else ScanItems(items[1..], section, id)
  }

  function Scan(snapshots: seq<(string, Json)>, corpusId: string, section: string, id: string): Option<Json> {
    var snapshot := FindSnapshot(snapshots, corpusId, |snapshots|);
    if snapshot.None? || section !in SECTIONS then None
    else
      var items := SectionItems(snapshot.value, section);
      if items.Failure? then None else ScanItems(items.value, section, id)
  }

  lemma {:induction false} ScanFinds(items: seq<Json>, section: string, id: string, i: nat)
    requires i < |items| && GetStr(items[i], IdField(section)) == Some(id)
    requires forall k :: 0 <= k < |items| && GetStr(items[k], IdField(section)) == Some(id) ==> k == i
    ensures ScanItems(items, section, id) == Some(items[i])
  {
    if i > 0 {
      assert GetStr(items[0], IdField(section)) != Some(id);
      forall k | 0 <= k < |items[1..]| && GetStr(items[1..][k], IdField(section)) == Some(id) ensures k == i - 1 {
        var next := k + 1;
        assert items[next] == items[1..][k];
      }
      ScanFinds(items[1..], section, id, i - 1);
    }
  }

  lemma {:induction false} ScanMisses(items: seq<Json>, section: string, id: string)
    requires forall k :: 0 <= k < |items| ==> GetStr(items[k], IdField(section)) != Some(id)
    ensures ScanItems(items, section, id).None?
  {
    if items != [] {
      ScanMisses(items[1..], section, id);
    }
  }

  lemma SectionsAddressable(section: string)
    requires section in SECTIONS
    ensures Addressable(section)
  {
    Utf8Short(section);
  }

  lemma {:induction false} Utf8Short(s: string)
    ensures |Utf8(s)| <= 4 * |s|
  {
    if s != [] {
      Utf8Short(s[1..]);
    }
  }

  ghost predicate Lookupable<S>(state: Stored<S>, index: Index) {
    && DistinctCorpora(state.snapshots)
    && (forall k :: 0 <= k < |state.snapshots| ==> Addressable(state.snapshots[k].0))
    && (forall k :: 0 <= k < |state.snapshots| ==> SnapshotOk(state.snapshots[k].0, state.snapshots[k].1))
    && Indexed(index, Entries(state.snapshots, |state.snapshots|))
  }

  /** A key is indexed exactly when the section holds an item with that id, and then at that item's position. */
  lemma LookupIsPosition<S>(state: Stored<S>, index: Index, corpusId: string, section: string, id: string)
    requires Lookupable(state, index) && section in SECTIONS && Addressable(corpusId) && Addressable(id)
    ensures var key, snapshot := KeyBytes(corpusId, section, id), FindSnapshot(state.snapshots, corpusId, |state.snapshots|);
      && (key in index ==> 0 <= index[key] && snapshot.Some? && ItemIn(snapshot.value, section, index[key], id))
      && (forall i :: snapshot.Some? && ItemIn(snapshot.value, section, i, id) ==> key in index && index[key] == i)
  {
    var entries, n := Entries(state.snapshots, |state.snapshots|), |state.snapshots|;
    var key, snapshot := KeyBytes(corpusId, section, id), FindSnapshot(state.snapshots, corpusId, n);
    hide ItemIn, SnapshotOk, KeyBytes, Entries, Addressable;
    if key in index {
      var k :| 0 <= k < |entries| && KeyOf(entries[k]) == key;
      var e := entries[k];
      EntriesAre(state.snapshots, n, e);
      EntryAddressable(state, e);
      SectionsAddressable(section);
      KeyBytesInjective(e.corpusId, e.section, e.id, corpusId, section, id);
    }
    forall i | snapshot.Some? && ItemIn(snapshot.value, section, i, id) ensures key in index && index[key] == i {
      var e := Entry(corpusId, section, id, i);
      EntriesAre(state.snapshots, n, e);
      var k :| 0 <= k < |entries| && entries[k] == e;
      assert KeyOf(e) == key;
    }
  }

  lemma EntryAddressable<S>(state: Stored<S>, e: Entry)
    requires DistinctCorpora(state.snapshots) && e in Entries(state.snapshots, |state.snapshots|)
    requires forall k :: 0 <= k < |state.snapshots| ==> Addressable(state.snapshots[k].0)
    requires forall k :: 0 <= k < |state.snapshots| ==> SnapshotOk(state.snapshots[k].0, state.snapshots[k].1)
    ensures Addressable(e.corpusId) && Addressable(e.section) && Addressable(e.id)
  {
    var n := |state.snapshots|;
    EntriesAre(state.snapshots, n, e);
    FoundAt(state.snapshots, e.corpusId, n);
    var k :| 0 <= k < n && state.snapshots[k] == (e.corpusId, FindSnapshot(state.snapshots, e.corpusId, n).value);
    SectionsAddressable(e.section);
    var s :| 0 <= s < |SECTIONS| && SECTIONS[s] == e.section;
    assert SectionOk(e.corpusId, state.snapshots[k].1, SECTIONS[s]);
    assert ItemOk(e.corpusId, e.section, SectionItems(state.snapshots[k].1, e.section).value[e.index]);
  }

  lemma {:induction false} FoundAt(snapshots: seq<(string, Json)>, corpusId: string, k: nat)
    requires k <= |snapshots| && FindSnapshot(snapshots, corpusId, k).Some?
    ensures exists j :: 0 <= j < k && snapshots[j] == (corpusId, FindSnapshot(snapshots, corpusId, k).value)
  {
    if snapshots[k - 1].0 == corpusId {
      assert snapshots[k - 1] == (corpusId, snapshots[k - 1].1);
    } else {
      FoundAt(snapshots, corpusId, k - 1);
    }
  }

  lemma ScanIsPosition(snapshot: Json, section: string, id: string, i: nat)
    requires ItemIn(snapshot, section, i, id)
    requires forall k :: ItemIn(snapshot, section, k, id) ==> k == i
    ensures ScanItems(SectionItems(snapshot, section).value, section, id) == Some(SectionItems(snapshot, section).value[i])
  {
    var items := SectionItems(snapshot, section).value;
    forall k | 0 <= k < |items| && GetStr(items[k], IdField(section)) == Some(id) ensures k == i {
      assert ItemIn(snapshot, section, k, id);
    }
    ScanFinds(items, section, id, i);
  }

  lemma ScanIsEmpty(snapshot: Json, section: string, id: string)
    requires SectionItems(snapshot, section).Success?
    requires forall k :: !ItemIn(snapshot, section, k, id)
    ensures ScanItems(SectionItems(snapshot, section).value, section, id).None?
  {
    var items := SectionItems(snapshot, section).value;
    forall k | 0 <= k < |items| ensures GetStr(items[k], IdField(section)) != Some(id) {
      assert !ItemIn(snapshot, section, k, id);
    }
    ScanMisses(items, section, id);
  }

  /** `bounded_snapshot_item`: the indexed position, with every check on the way. */
  function Lookup<S>(state: Stored<S>, index: Index, corpusId: string, section: string, id: string): Option<Json> {
    var key, snapshot := KeyBytes(corpusId, section, id), FindSnapshot(state.snapshots, corpusId, |state.snapshots|);
    if section !in SECTIONS || key !in index || snapshot.None? then None
    else
      var items := SectionItems(snapshot.value, section);
      if items.Failure? || index[key] < 0 || index[key] >= |items.value| then None
      else
        var item := items.value[index[key]];
        if GetStr(item, "corpusId") != Some(corpusId) || GetStr(item, IdField(section)) != Some(id) then None
        else Some(item)
  }

  // ---------- the catalog ----------

  class BoundedCatalog {
    var ready: bool
    var indices: Index
    var endpointCounts: map<string, nat>
    var edgeCounts: map<string, nat>

    ghost predicate Current<S>(state: Stored<S>)
      reads this
    {
      Describes(state, indices, endpointCounts, edgeCounts)
    }

    constructor ()
      ensures !ready
    {
      ready, indices, endpointCounts, edgeCounts := false, map[], map[], map[];
    }

    /** `mark_cache_dirty`: every mutation of the state drops the catalog. */
    method MarkDirty()
      modifies this
      ensures !ready && indices == map[] && endpointCounts == map[] && edgeCounts == map[]
    {
      ready, indices, endpointCounts, edgeCounts := false, map[], map[], map[];
    }

    /** A build succeeds exactly on a consistent state, and then its tables describe that state. */
    method Ensure<S>(state: Stored<S>) returns (r: Outcome<FailureKind>)
      requires AddressableState(state) && (ready ==> Current(state))
      modifies this
      ensures r.Pass? ==> ready && Current(state)
      ensures r.Fail? ==> !ready
      ensures !old(ready) ==> (r.Pass? <==> Consistent(state))
    {
      hide Describes, Consistent, AddressableState;
      if ready {
        return Pass;
      }
      indices, endpointCounts, edgeCounts := map[], map[], map[];
      var indexed := IndexSnapshots(state.snapshots);
      if indexed.Failure? {
        BuildFails(state);
        return Fail(indexed.error);
      }
      indices := indexed.value;
      if |state.edges| > MAX_GRAPH_EDGES {
        BuildFails(state);
        return Fail(ResourceLimit);
      }
      var counted := CountEdges(state);
      if counted.Failure? {
        BuildFails(state);
        return Fail(counted.error);
      }
      endpointCounts, edgeCounts := counted.value.0.counts, counted.value.1;
      BuildSucceeds(state, indices, counted.value.0, edgeCounts);
      ready := true;
      return Pass;
    }

    /** Lookup by key agrees with a scan of the stored section. */
    method SnapshotItem<S>(state: Stored<S>, corpusId: string, section: string, id: string)
      returns (r: Result<Json, FailureKind>)
      requires ready && Current(state) && AddressableState(state) && DistinctCorpora(state.snapshots)
      requires Addressable(corpusId) && Addressable(id)
      ensures var found := Scan(state.snapshots, corpusId, section, id);
        r == if found.Some? then Success(found.value) else Failure(Integrity)
      ensures Lookup(state, indices, corpusId, section, id) == Scan(state.snapshots, corpusId, section, id)
    {
      LookupIsScan(state, indices, endpointCounts, edgeCounts, corpusId, section, id);
      hide Lookup;
      if section !in SECTIONS {
        return Failure(Integrity);
      }
      var key, snapshot := KeyBytes(corpusId, section, id), FindSnapshot(state.snapshots, corpusId, |state.snapshots|);
      CurrentLookup(state, indices, endpointCounts, edgeCounts, corpusId, section, id);
      hide Describes, KeyBytes, Scan, ItemOk, AddressableState, Addressable;
      if key !in indices {
        return Failure(Integrity);
      }
      if snapshot.None? {
        assert false;
      }
      var items := SectionItems(snapshot.value, section);
      if items.Failure? || indices[key] < 0 || indices[key] >= |items.value| {
        assert false;
      }
      var item := items.value[indices[key]];
      if GetStr(item, "corpusId") != Some(corpusId) || GetStr(item, IdField(section)) != Some(id) {
        assert false;
      }
      return Success(item);
    }
  }

  lemma BuildFails<S>(state: Stored<S>)
    requires SnapshotsRefused(state.snapshots) || |state.edges| > MAX_GRAPH_EDGES || EdgesRefused(state)
    ensures !Consistent(state)
  {
  }

  lemma BuildSucceeds<S>(state: Stored<S>, index: Index, ends: Ends, counts: map<string, nat>)
    requires SnapshotsIndexed(index, state.snapshots, |state.snapshots|) && |state.edges| <= MAX_GRAPH_EDGES
    requires EdgesCounted(state, |state.edges|, ends, counts)
    ensures Describes(state, index, ends.counts, counts) && Consistent(state)
  {
    hide SnapshotOk, EdgeOk, Entries, Pairs, NodesOf, KeyOf, KeyBytes, AddressablePairs, EdgeCountAt;
    assert state.edges[..|state.edges|] == state.edges;
  }

  lemma FoundIsOk<S>(state: Stored<S>, corpusId: string, section: string)
    requires forall k :: 0 <= k < |state.snapshots| ==> SnapshotOk(state.snapshots[k].0, state.snapshots[k].1)
    requires section in SECTIONS && FindSnapshot(state.snapshots, corpusId, |state.snapshots|).Some?
    ensures SectionOk(corpusId, FindSnapshot(state.snapshots, corpusId, |state.snapshots|).value, section)
  {
    var snapshot := FindSnapshot(state.snapshots, corpusId, |state.snapshots|).value;
    FoundAt(state.snapshots, corpusId, |state.snapshots|);
    var k :| 0 <= k < |state.snapshots| && state.snapshots[k] == (corpusId, snapshot);
    var s :| 0 <= s < |SECTIONS| && SECTIONS[s] == section;
    assert SectionOk(corpusId, snapshot, SECTIONS[s]);
  }

  /** Everything `SnapshotItem` relies on for one key. */
  lemma CurrentLookup<S>(state: Stored<S>, index: Index, endpoints: map<string, nat>, edges: map<string, nat>,
                         corpusId: string, section: string, id: string)
    requires Describes(state, index, endpoints, edges) && AddressableState(state) && DistinctCorpora(state.snapshots)
    requires section in SECTIONS && Addressable(corpusId) && Addressable(id)
    ensures var key, found := KeyBytes(corpusId, section, id), Scan(state.snapshots, corpusId, section, id);
      var snapshot := FindSnapshot(state.snapshots, corpusId, |state.snapshots|);
      if key !in index then found.None?
      else
        && snapshot.Some? && SectionItems(snapshot.value, section).Success?
        && var items := SectionItems(snapshot.value, section).value;
        0 <= index[key] < |items| && ItemOk(corpusId, section, items[index[key]])
        && GetStr(items[index[key]], IdField(section)) == Some(id) && found == Some(items[index[key]])
  {
    hide Indexed, Entries, KeyBytes, Addressable, ItemOk, SnapshotOk, EdgeOk, EdgeCounts, Pairs, NodesOf, DistinctCorpora;
    var key, snapshot := KeyBytes(corpusId, section, id), FindSnapshot(state.snapshots, corpusId, |state.snapshots|);
    LookupIsPosition(state, index, corpusId, section, id);
    if snapshot.Some? {
      FoundIsOk(state, corpusId, section);
      if key in index {
        ScanIsPosition(snapshot.value, section, id, index[key]);
      } else {
        ScanIsEmpty(snapshot.value, section, id);
      }
    }
  }

  /** Over a catalogued state the lookup finds what the scan finds; its checks never fail. */
  lemma LookupIsScan<S>(state: Stored<S>, index: Index, endpoints: map<string, nat>, edges: map<string, nat>,
                        corpusId: string, section: string, id: string)
    requires Describes(state, index, endpoints, edges) && AddressableState(state) && DistinctCorpora(state.snapshots)
    requires Addressable(corpusId) && Addressable(id)
    ensures Lookup(state, index, corpusId, section, id) == Scan(state.snapshots, corpusId, section, id)
  {
    hide Describes, KeyBytes, Addressable, AddressableState, FindSnapshot;
    if section in SECTIONS {
      CurrentLookup(state, index, endpoints, edges, corpusId, section, id);
    }
  }

  /** No two items of a catalogued section share an id, so the scan's first hit is its only one. */
  lemma ItemsAreUnique<S>(state: Stored<S>, index: Index, endpoints: map<string, nat>, edges: map<string, nat>,
                          corpusId: string, snapshot: Json, section: string, id: string, i: nat, j: nat)
    requires Describes(state, index, endpoints, edges) && AddressableState(state) && DistinctCorpora(state.snapshots)
    requires section in SECTIONS && Addressable(corpusId) && Addressable(id)
    requires FindSnapshot(state.snapshots, corpusId, |state.snapshots|) == Some(snapshot)
    requires ItemIn(snapshot, section, i, id) && ItemIn(snapshot, section, j, id)
    ensures i == j
  {
    LookupIsPosition(state, index, corpusId, section, id);
  }
}
