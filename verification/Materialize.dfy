/**
  The stored objects behind a ranking: lookup, size check, and the guarded clone
  of each one, with the deadline read around every allocation.
 */
module Materialize {
  import opened Wrappers
  import opened Deadline
  import opened Accounting
  import opened Text
  import opened Json
  import opened Ranking

  // ---------- cloning ----------

  /** `try_clone_json_value`: the clone is the value, and only the deadline stops it. */
  method CloneJson(value: Json, work: WorkCell, deadline: ExecutionDeadline) returns (r: Result<Json, ExecutionFailure>)
    requires deadline.Valid()
    modifies deadline, deadline.mono
    ensures r.Success? ==> r.value == value && deadline.Valid()
    ensures deadline.completedUnits == old(deadline.completedUnits)
    ensures r.Failure? ==> TimedOut(r.error, deadline.Expired())
    decreases value
  {
    hide ExecutionDeadline.Valid, ExecutionDeadline.Expired;
    match value
    case Null => return Success(Null);
    case Bool(b) => return Success(Bool(b));
    case Num(n) => return Success(Num(n));
    case Str(s) =>
      var guarded := GuardReservation(work, deadline);
      if guarded.Fail? {
        return Failure(guarded.error);
      }
      return Success(Str(s));
    case Arr(items) =>
      var guarded := GuardAllocation(work, deadline);
      if guarded.Fail? {
        return Failure(guarded.error);
      }
      var cloned: seq<Json> := [];
      for i := 0 to |items|
        invariant cloned == items[..i] && deadline.Valid()
        invariant deadline.completedUnits == old(deadline.completedUnits)
      {
        var item :- CloneJson(items[i], work, deadline);
        cloned := cloned + [item];
      }
      guarded := GuardAllocation(work, deadline);
      if guarded.Fail? {
        return Failure(guarded.error);
      }
      assert items[..|items|] == items;
      return Success(Arr(cloned));
    case Obj(fields) =>
      var cloned: map<string, Json> := map[];
      var rest := fields.Keys;
      while rest != {}
        invariant rest <= fields.Keys && cloned.Keys == fields.Keys - rest
        invariant forall f :: f in cloned ==> cloned[f] == fields[f]
        invariant deadline.Valid() && deadline.completedUnits == old(deadline.completedUnits)
        decreases rest
      {
        var f :| f in rest;
        var guarded := GuardReservation(work, deadline);
        if guarded.Fail? {
          return Failure(guarded.error);
        }
        var member :- CloneJson(fields[f], work, deadline);
        cloned, rest := cloned[f := member], rest - {f};
      }
      var guarded := GuardAllocation(work, deadline);
      if guarded.Fail? {
        return Failure(guarded.error);
      }
      assert cloned == fields;
      return Success(Obj(cloned));
  }

  // ---------- one object ----------

  /** Counters that `CheckWork` accepts with up to `MAX_COMBINED_OBJECTS` objects. */
  predicate Affordable(w: WorkCounts) {
    && w.vectorComparisons == 0 && w.factsInspected == 0
    && w.iterations <= MAX_ITERATIONS && w.nodesInitialized <= MAX_GRAPH_NODES && w.edgesVisited <= MAX_GRAPH_EDGES
    && w.graphScanUnits <= MAX_GRAPH_SCAN_UNITS
  }

  /** `materialize_domain_object` for a value of `bytes` encoded bytes; its work check never rejects. */
  method MaterializeObject(value: Json, bytes: nat, work: WorkCell, deadline: ExecutionDeadline)
    returns (r: Result<Json, ExecutionFailure>)
    requires deadline.Valid() && Affordable(work.counts) && work.counts.objectsConsidered < MAX_COMBINED_OBJECTS
    modifies work, deadline, deadline.mono
    ensures r.Success? ==> r.value == value && bytes <= MAX_OBJECT_BYTES && deadline.Valid()
    ensures r.Success? ==>
      work.counts == old(work.counts).(objectsConsidered := old(work.counts).objectsConsidered + 1)
    ensures r.Failure? ==>
      TimedOut(r.error, deadline.Expired()) || (r.error.kind == ResourceLimit && bytes > MAX_OBJECT_BYTES)
  {
    hide ExecutionDeadline.Valid, ExecutionDeadline.Expired;
    work.counts := work.counts.(objectsConsidered := work.counts.objectsConsidered + 1);
    if CheckWork(work.counts).Failure? {
      assert false;
    }
    var guarded := GuardAllocation(work, deadline);
    if guarded.Fail? {
      return Failure(guarded.error);
    }
    if bytes > MAX_OBJECT_BYTES {
      return Failure(ExecutionFailure(ResourceLimit, work.counts));
    }
    r := CloneJson(value, work, deadline);
  }

  // ---------- the objects of a ranking ----------

  /** What is stored under a section and an id, and how long a value's encoding is. */
  datatype Store = Store(item: (string, string) -> Option<Json>, encodedBytes: Json -> nat)

  /** The stored objects of a ranking, or why they cannot be attached: the first one that is missing or too large. */
  function Attach<S>(store: Store, section: string, prefix: string, ranked: seq<Key<S>>, j: nat): Result<seq<Json>, FailureKind>
    requires j <= |ranked|
  {
    if j == 0 then Success([])
    else
      var before := Attach(store, section, prefix, ranked, j - 1);
      if before.Failure? then before
      else if !StartsWith(ranked[j - 1].id, prefix) then Failure(Integrity)
      else
        match (store.item)(section, StripPrefix(ranked[j - 1].id, prefix))
        case None => Failure(Integrity)
        case Some(found) =>
          if (store.encodedBytes)(found) > MAX_OBJECT_BYTES then Failure(ResourceLimit) else Success(before.value + [found])
  }

  predicate AllStartWith<S>(ranked: seq<Key<S>>, prefix: string) {
    forall i :: 0 <= i < |ranked| ==> StartsWith(ranked[i].id, prefix)
  }

  /** The objects of one ranking, in rank order. */
  method MaterializeAll<S>(store: Store, section: string, prefix: string, ranked: seq<Key<S>>,
                           work: WorkCell, deadline: ExecutionDeadline)
    returns (r: Result<seq<Json>, ExecutionFailure>)
    requires deadline.Valid() && AllStartWith(ranked, prefix)
    requires Affordable(work.counts) && work.counts.objectsConsidered + |ranked| <= MAX_COMBINED_OBJECTS
    modifies work, deadline, deadline.mono
    ensures r.Success? ==> deadline.Valid() && Attach(store, section, prefix, ranked, |ranked|) == Success(r.value)
    ensures r.Success? ==>
      work.counts == old(work.counts).(objectsConsidered := old(work.counts).objectsConsidered + |ranked|)
    ensures r.Failure? ==> TimedOut(r.error, deadline.Expired())
                           || Attach(store, section, prefix, ranked, |ranked|) == Failure(r.error.kind)
  {
    hide ExecutionDeadline.Valid, ExecutionDeadline.Expired;
    ghost var w := work.counts;
    var objects: seq<Json> := [];
    for i := 0 to |ranked|
      invariant deadline.Valid() && Attach(store, section, prefix, ranked, i) == Success(objects)
      invariant work.counts == w.(objectsConsidered := w.objectsConsidered + i)
    {
      if !StartsWith(ranked[i].id, prefix) {
        assert false;
      }
      AttachFails(store, section, prefix, ranked, i + 1, |ranked|);
      var stored := (store.item)(section, StripPrefix(ranked[i].id, prefix));
      if stored.None? {
        return Failure(ExecutionFailure(Integrity, work.counts));
      }
      var materialized :- MaterializeObject(stored.value, (store.encodedBytes)(stored.value), work, deadline);
      objects := objects + [materialized];
    }
    return Success(objects);
  }

  lemma {:induction false} AttachFails<S>(store: Store, section: string, prefix: string, ranked: seq<Key<S>>, i: nat, j: nat)
    requires i <= j <= |ranked|
    ensures Attach(store, section, prefix, ranked, i).Failure? ==>
      Attach(store, section, prefix, ranked, j) == Attach(store, section, prefix, ranked, i)
    decreases j
  {
    if i < j {
      AttachFails(store, section, prefix, ranked, i, j - 1);
    }
  }

  /** `v` is the object stored for a ranked id: under the section and the id without its prefix, and small enough. */
  predicate IsObject(store: Store, section: string, prefix: string, id: string, v: Json) {
    prefix <= id && (store.item)(section, id[|prefix|..]) == Some(v) && (store.encodedBytes)(v) <= MAX_OBJECT_BYTES
  }

  /** Why a ranked id has no object: nothing is stored for it, or what is stored is too large. */
  predicate Lacks(store: Store, section: string, prefix: string, id: string, kind: FailureKind) {
    if prefix <= id && (store.item)(section, id[|prefix|..]).Some?
    then kind == ResourceLimit && (store.encodedBytes)((store.item)(section, id[|prefix|..]).value) > MAX_OBJECT_BYTES
    else kind == Integrity
  }

  predicate AllObjects<S>(store: Store, section: string, prefix: string, ranked: seq<Key<S>>, k: nat, objects: seq<Json>)
    requires k <= |ranked|
  {
    |objects| == k && forall i :: 0 <= i < k ==> IsObject(store, section, prefix, ranked[i].id, objects[i])
  }

  ghost predicate HasObject(store: Store, section: string, prefix: string, id: string) {
    exists v :: IsObject(store, section, prefix, id, v)
  }

  /** The first ranked id without an object decides the failure. */
  ghost predicate FirstLack<S>(store: Store, section: string, prefix: string, ranked: seq<Key<S>>, k: nat, kind: FailureKind)
    requires k <= |ranked|
  {
    exists i :: 0 <= i < k && Lacks(store, section, prefix, ranked[i].id, kind)
      && forall j :: 0 <= j < i ==> HasObject(store, section, prefix, ranked[j].id)
  }

  lemma ObjectOrLack(store: Store, section: string, prefix: string, id: string)
    ensures HasObject(store, section, prefix, id) <==> forall kind :: !Lacks(store, section, prefix, id, kind)
  {
    if prefix <= id && (store.item)(section, id[|prefix|..]).Some? {
      var v := (store.item)(section, id[|prefix|..]).value;
      assert (store.encodedBytes)(v) <= MAX_OBJECT_BYTES ==> IsObject(store, section, prefix, id, v);
      assert (store.encodedBytes)(v) > MAX_OBJECT_BYTES ==> Lacks(store, section, prefix, id, ResourceLimit);
    } else {
      assert Lacks(store, section, prefix, id, Integrity);
    }
  }

  /** The objects of a ranking are attached exactly when every one of its ids has one. */
  lemma {:induction false} AttachMeans<S>(store: Store, section: string, prefix: string, ranked: seq<Key<S>>, k: nat)
    requires k <= |ranked|
    ensures var r := Attach(store, section, prefix, ranked, k);
      && (r.Success? ==> AllObjects(store, section, prefix, ranked, k, r.value))
      && (r.Failure? ==> FirstLack(store, section, prefix, ranked, k, r.error))
  {
    if k > 0 {
      AttachMeans(store, section, prefix, ranked, k - 1);
      var before, now := Attach(store, section, prefix, ranked, k - 1), Attach(store, section, prefix, ranked, k);
      if before.Success? {
        forall j | 0 <= j < k - 1 ensures HasObject(store, section, prefix, ranked[j].id) {
          assert IsObject(store, section, prefix, ranked[j].id, before.value[j]);
        }
        if now.Failure? {
          assert Lacks(store, section, prefix, ranked[k - 1].id, now.error);
        }
      }
    }
  }

  /** A failure really lacks an object, so it never happens where all are there. */
  lemma AttachExactly<S>(store: Store, section: string, prefix: string, ranked: seq<Key<S>>)
    ensures Attach(store, section, prefix, ranked, |ranked|).Success?
      <==> forall i :: 0 <= i < |ranked| ==> HasObject(store, section, prefix, ranked[i].id)
  {
    hide Attach, Lacks, IsObject;
    AttachMeans(store, section, prefix, ranked, |ranked|);
    forall i | 0 <= i < |ranked|
      ensures HasObject(store, section, prefix, ranked[i].id) <==> forall kind :: !Lacks(store, section, prefix, ranked[i].id, kind)
    {
      ObjectOrLack(store, section, prefix, ranked[i].id);
    }
  }
}
