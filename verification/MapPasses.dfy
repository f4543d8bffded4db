/**
  One walk over the keys of a hash map in some order: what is already mapped,
  collected and counted. Every pass of the document delete is such a walk.
 */
module MapPasses {
  import opened Wrappers

  ghost predicate Listing(order: seq<string>, keys: set<string>) {
    && (forall k :: k in order <==> k in keys)
    && (forall i, j :: 0 <= i < j < |order| ==> order[i] != order[j])
  }

  /** The keys visited before position `i`. */
  ghost function Done(order: seq<string>, i: nat): set<string>
    requires i <= |order|
  {
    set j | 0 <= j < i :: order[j]
  }

  lemma DoneStep(order: seq<string>, keys: set<string>, i: nat)
    requires Listing(order, keys) && i < |order|
    ensures order[i] in keys && order[i] !in Done(order, i)
    ensures Done(order, i + 1) == Done(order, i) + {order[i]}
  {
  }

  lemma DoneAll(order: seq<string>, keys: set<string>)
    requires Listing(order, keys)
    ensures Done(order, |order|) == keys
    ensures Done(order, 0) == {}
  {
    forall k | k in keys ensures k in Done(order, |order|) {
      assert k in order;
    }
  }

  // ---------- mapping ----------

  /** The visited entries of `was` are mapped by `f`, which may drop them; the others are as they were. */
  ghost predicate Mapped<V>(was: map<string, V>, now: map<string, V>, done: set<string>, f: (string, V) -> Option<V>) {
    && (forall k :: k in now <==> k in was && (k in done ==> f(k, was[k]).Some?))
    && (forall k :: k in now ==> now[k] == if k in done then f(k, was[k]).value else was[k])
  }

  function Step<V>(now: map<string, V>, k: string, v: Option<V>): map<string, V> {
    if v.Some? then now[k := v.value] else now - {k}
  }

  lemma MappedStep<V>(was: map<string, V>, now: map<string, V>, done: set<string>, f: (string, V) -> Option<V>, k: string)
    requires Mapped(was, now, done, f) && k in was && k !in done
    ensures k in now && now[k] == was[k]
    ensures Mapped(was, Step(now, k, f(k, was[k])), done + {k}, f)
  {
  }

  /** When `f` keeps what is not visited, the walk maps everything. */
  lemma MappedAll<V>(was: map<string, V>, now: map<string, V>, done: set<string>, f: (string, V) -> Option<V>)
    requires Mapped(was, now, done, f)
    requires forall k :: k in was && k !in done ==> f(k, was[k]) == Some(was[k])
    ensures now == map k | k in was && f(k, was[k]).Some? :: f(k, was[k]).value
  {
  }

  // ---------- collecting ----------

  /** The union of what `g` says about the visited entries. */
  ghost predicate Collected<V>(found: set<string>, was: map<string, V>, done: set<string>, g: (string, V) -> set<string>) {
    forall x :: x in found <==> exists k :: k in done && k in was && x in g(k, was[k])
  }

  lemma CollectedStep<V>(found: set<string>, was: map<string, V>, done: set<string>, g: (string, V) -> set<string>, k: string)
    requires Collected(found, was, done, g) && k in was
    ensures Collected(found + g(k, was[k]), was, done + {k}, g)
  {
    var more, next := found + g(k, was[k]), done + {k};
    forall x ensures x in more <==> exists j :: j in next && j in was && x in g(j, was[j]) {
      if x in found {
        var j :| j in done && j in was && x in g(j, was[j]);
        assert j in next;
      }
    }
  }

  // ---------- counting ----------

  ghost predicate Counted(n: nat, done: set<string>, p: string -> bool) {
    n == |set k | k in done && p(k)|
  }

  lemma CountedStep(n: nat, done: set<string>, p: string -> bool, k: string)
    requires Counted(n, done, p) && k !in done
    ensures Counted(if p(k) then n + 1 else n, done + {k}, p)
  {
    var before, after := set j | j in done && p(j), set j | j in done + {k} && p(j);
    assert p(k) ==> after == before + {k};
    assert !p(k) ==> after == before;
  }
}
