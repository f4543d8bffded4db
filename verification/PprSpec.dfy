/**
  What one ranking request computes, as a function of the corpus's edge triples
  and the plan, over any arithmetic: nothing here assumes that addition is
  associative or commutative.
 */
module PprSpec {
  import opened Wrappers
  import opened Deadline
  import opened Text
  import opened StableSort
  import opened Graph
  import opened Csr
  import opened Ranking

  /** The operations the kernel applies to weights and scores. */
  datatype Arith<!S> = Arith(
    zero: S,
    one: S,
    add: (S, S) -> S,
    sub: (S, S) -> S,
    mul: (S, S) -> S,
    div: (S, S) -> S,
    abs: S -> S,
    less: (S, S) -> bool,
    leq: (S, S) -> bool,        // the total order of `total_cmp`
    finite: S -> bool,
    ofNat: nat -> S,
    hubFactor: nat -> S)        // 1 / log2(degree + 2)

  datatype Plan<+S> = Plan(
    seeds: seq<(string, S)>,
    hubDegreeThreshold: nat,
    teleportProbability: S,
    convergenceEpsilon: S,
    maxIterations: nat,
    passageLimit: nat,
    entityLimit: nat)

  // ---------- the graph ----------

  /** Endpoints in order of first appearance. */
  function FirstSeen<S>(triples: seq<Triple<S>>, j: nat): seq<string>
    requires j <= |triples|
  {
    if j == 0 then []
    else
      var seen := FirstSeen(triples, j - 1);
      var withSource := AddNew(seen, triples[j - 1].source);
      AddNew(withSource, triples[j - 1].target)
  }

  function AddNew(seen: seq<string>, id: string): seq<string> {
    if id in seen then seen else seen + [id]
  }

  /** The node ids of the ranking graph, in canonical order. */
  function NodeIds<S>(triples: seq<Triple<S>>): seq<string> {
    Sort(IdLeq, FirstSeen(triples, |triples|))
  }

  /** The position of `id` in `ids`, or the length when it is absent. */
  function IndexOf(ids: seq<string>, id: string): nat {
    if ids == [] || ids[0] == id then 0 else 1 + IndexOf(ids[1..], id)
  }

  function ArcOf<S>(ids: seq<string>, t: Triple<S>): Arc<S> {
    Arc(IndexOf(ids, t.source), IndexOf(ids, t.target), t.weight)
  }

  function Arcs<S>(ids: seq<string>, triples: seq<Triple<S>>): seq<Arc<S>> {
    seq(|triples|, i requires 0 <= i < |triples| => ArcOf(ids, triples[i]))
  }

  /** The weights leaving `s`, added in arc order. */
  function WeightSum<S>(A: Arith<S>, arcs: seq<Arc<S>>, j: nat, s: nat): S
    requires j <= |arcs|
  {
    if j == 0 then A.zero
    else if arcs[j - 1].source == s then (A.add)(WeightSum(A, arcs, j - 1, s), arcs[j - 1].weight)
    else WeightSum(A, arcs, j - 1, s)
  }

  /** Whether the degree pass accepts arc `j`: a finite nonnegative weight and a finite running sum. */
  predicate ArcAccepted<S>(A: Arith<S>, arcs: seq<Arc<S>>, j: nat)
    requires j < |arcs|
  {
    && (A.finite)(arcs[j].weight) && !(A.less)(arcs[j].weight, A.zero)
    && (A.finite)(WeightSum(A, arcs, j + 1, arcs[j].source))
  }

  predicate ArcsAccepted<S>(A: Arith<S>, arcs: seq<Arc<S>>) {
    forall j :: 0 <= j < |arcs| ==> ArcAccepted(A, arcs, j)
  }

  function Damping<S>(A: Arith<S>, threshold: nat, id: string, degree: nat): S {
    if StartsWith(id, "schema:") && degree > threshold then (A.hubFactor)(degree) else A.one
  }

  // ---------- the teleport vector ----------

  function Zeros<S>(A: Arith<S>, n: nat): seq<S> {
    seq(n, i => A.zero)
  }

  function SeedLeq<S>(a: (string, S), b: (string, S)): bool {
    IdLeq(a.0, b.0)
  }

  /** Seeds placed in order: a later one overwrites the slot, and every hit adds to the sum. */
  function PlaceSeeds<S>(A: Arith<S>, ids: seq<string>, seeds: seq<(string, S)>, j: nat): (r: (seq<S>, S))
    requires j <= |seeds|
    ensures |r.0| == |ids|
  {
    if j == 0 then (Zeros(A, |ids|), A.zero)
    else
      var (vector, sum) := PlaceSeeds(A, ids, seeds, j - 1);
      var at := IndexOf(ids, seeds[j - 1].0);
      if at < |ids| then (vector[at := seeds[j - 1].1], (A.add)(sum, seeds[j - 1].1)) else (vector, sum)
  }

  function Teleport<S>(A: Arith<S>, ids: seq<string>, seeds: seq<(string, S)>): (r: seq<S>)
    ensures |r| == |ids|
  {
    var sorted := Sort(SeedLeq, seeds);
    var (vector, sum) := PlaceSeeds(A, ids, sorted, |sorted|);
    if (A.less)(A.zero, sum) then seq(|ids|, i requires 0 <= i < |ids| => (A.div)(vector[i], sum))
    else seq(|ids|, i => (A.div)(A.one, (A.ofNat)(|ids|)))
  }

  // ---------- the iteration ----------

  datatype Network<+S> = Network(arcs: seq<Arc<S>>, totals: seq<S>, damping: seq<S>, teleport: seq<S>, t: S)

  predicate WellFormed<S>(net: Network<S>, n: nat) {
    && |net.totals| == |net.damping| == |net.teleport| == n
    && Within(net.arcs, n)
  }

  /** What arc `a` carries from its source's score to its target. */
  function Carried<S>(A: Arith<S>, net: Network<S>, scores: seq<S>, a: Arc<S>): S
    requires WellFormed(net, |scores|) && a.source < |scores| && a.target < |scores|
  {
    (A.mul)(
      (A.mul)((A.mul)((A.sub)(A.one, net.t), scores[a.source]), (A.div)(a.weight, net.totals[a.source])),
      net.damping[a.target])
  }

  /** The accumulator after the first `j` arcs. */
  function Spread<S>(A: Arith<S>, net: Network<S>, scores: seq<S>, j: nat): (r: seq<S>)
    requires WellFormed(net, |scores|) && j <= |net.arcs|
    ensures |r| == |scores|
  {
    if j == 0 then Zeros(A, |scores|)
    else
      var before := Spread(A, net, scores, j - 1);
      var a := net.arcs[j - 1];
      before[a.target := (A.add)(before[a.target], Carried(A, net, scores, a))]
  }

  function Next<S>(A: Arith<S>, net: Network<S>, scores: seq<S>): (r: seq<S>)
    requires WellFormed(net, |scores|)
    ensures |r| == |scores|
  {
    var spread := Spread(A, net, scores, |net.arcs|);
    seq(|scores|, v requires 0 <= v < |scores| => (A.add)(spread[v], (A.mul)(net.t, net.teleport[v])))
  }

  /** The l1 distance, added from left to right. */
  function Delta<S>(A: Arith<S>, next: seq<S>, previous: seq<S>, j: nat): S
    requires j <= |next| == |previous|
  {
    if j == 0 then A.zero
    else (A.add)(Delta(A, next, previous, j - 1), (A.abs)((A.sub)(next[j - 1], previous[j - 1])))
  }

  /** A source with out-edges whose weights do not add up to a positive finite number stops the run. */
  predicate TotalsUsable<S>(A: Arith<S>, net: Network<S>, n: nat)
    requires WellFormed(net, n)
  {
    forall j :: 0 <= j < |net.arcs| ==>
      var total := net.totals[net.arcs[j].source];
      (A.finite)(total) && (A.less)(A.zero, total)
  }

  datatype Converged<+S> = Converged(scores: seq<S>, iterations: nat, converged: bool, l1Delta: S)

  function Iterate<S>(A: Arith<S>, net: Network<S>, plan: Plan<S>, scores: seq<S>, done: nat, l1Delta: S)
    : Result<Converged<S>, FailureKind>
    requires WellFormed(net, |scores|) && done <= plan.maxIterations
    decreases plan.maxIterations - done
  {
    if done == plan.maxIterations then Success(Converged(scores, done, false, l1Delta))
    else if !TotalsUsable(A, net, |scores|) then Failure(Integrity)
    else
      var next := Next(A, net, scores);
      var delta := Delta(A, next, scores, |scores|);
      if (exists v :: 0 <= v < |next| && !(A.finite)(next[v])) || !(A.finite)(delta) then Failure(Integrity)
      else if (A.less)(delta, plan.convergenceEpsilon) then Success(Converged(next, done + 1, true, delta))
      else Iterate(A, net, plan, next, done + 1, delta)
  }

  // ---------- the request ----------

  function NetworkOf<S>(A: Arith<S>, plan: Plan<S>, triples: seq<Triple<S>>): Network<S> {
    var ids := NodeIds(triples);
    var arcs := Arcs(ids, triples);
    var n := |ids|;
    Network(
      arcs,
      seq(n, s requires 0 <= s < n => WeightSum(A, arcs, |arcs|, s)),
      seq(n, s requires 0 <= s < n =>
        Damping(A, plan.hubDegreeThreshold, ids[s], OutCount(arcs, |arcs|, s) + InCount(arcs, |arcs|, s))),
      Teleport(A, ids, plan.seeds),
      plan.teleportProbability)
  }

  /** Triples in canonical order. */
  function Canonical<S>(A: Arith<S>, edges: seq<GraphEdge<S>>, corpusId: string): seq<Triple<S>> {
    Sort((a, b) => TripleLeq(A.leq, a, b), Triples(OfCorpus(edges, corpusId)))
  }

  datatype Answer<+S> = Answer(
    passages: seq<Key<S>>,
    facts: seq<Key<S>>,
    iterations: nat,
    converged: bool,
    l1Delta: S)

  /** The scored nodes whose id starts with `prefix`, in id order. */
  function Offers<S>(ids: seq<string>, scores: seq<S>, prefix: string, j: nat): seq<Key<S>>
    requires j <= |ids| == |scores|
  {
    if j == 0 then []
    else
      var before := Offers(ids, scores, prefix, j - 1);
      if StartsWith(ids[j - 1], prefix) then before + [Key(scores[j - 1], ids[j - 1])] else before
  }

  function Best<S>(A: Arith<S>, ids: seq<string>, scores: seq<S>, prefix: string, limit: nat): seq<Key<S>>
    requires |ids| == |scores|
  {
    Take(Sort(ByRank(A.leq), Offers(ids, scores, prefix, |ids|)), limit)
  }

  // ---------- endpoints ----------

  predicate Distinct<T(==)>(s: seq<T>) {
    forall i, j :: 0 <= i < j < |s| ==> s[i] != s[j]
  }

  ghost function Endpoints<S>(triples: seq<Triple<S>>): set<string> {
    (set t | t in triples :: t.source) + (set t | t in triples :: t.target)
  }

  ghost function EndpointsUpTo<S>(triples: seq<Triple<S>>, j: nat): set<string>
    requires j <= |triples|
  {
    if j == 0 then {} else EndpointsUpTo(triples, j - 1) + {triples[j - 1].source, triples[j - 1].target}
  }

  lemma {:induction false} EndpointsUpToIsPrefix<S>(triples: seq<Triple<S>>, j: nat)
    requires j <= |triples|
    ensures EndpointsUpTo(triples, j) == Endpoints(triples[..j])
  {
    if j > 0 {
      EndpointsUpToIsPrefix(triples, j - 1);
      var t := triples[j - 1];
      assert triples[..j] == triples[..j - 1] + [t];
      assert Endpoints(triples[..j]) == Endpoints(triples[..j - 1]) + {t.source, t.target};
    }
  }

  lemma AddNewKeeps(ids: seq<string>, id: string)
    requires Distinct(ids)
    ensures Distinct(AddNew(ids, id))
    ensures forall x :: x in AddNew(ids, id) <==> x in ids || x == id
  {
  }

  lemma {:induction false} FirstSeenIsEndpoints<S>(triples: seq<Triple<S>>, j: nat)
    requires j <= |triples|
    ensures Distinct(FirstSeen(triples, j))
    ensures forall id :: id in FirstSeen(triples, j) <==> id in EndpointsUpTo(triples, j)
  {
    if j > 0 {
      var before, t := FirstSeen(triples, j - 1), triples[j - 1];
      FirstSeenIsEndpoints(triples, j - 1);
      AddNewKeeps(before, t.source);
      AddNewKeeps(AddNew(before, t.source), t.target);
      assert FirstSeen(triples, j) == AddNew(AddNew(before, t.source), t.target);
      hide FirstSeen, AddNew, Distinct;
    }
  }

  lemma {:induction false} DistinctCardinality<T>(s: seq<T>)
    requires Distinct(s)
    ensures |set x | x in s| == |s|
  {
    if s != [] {
      DistinctCardinality(s[1..]);
      assert (set x | x in s) == {s[0]} + (set x | x in s[1..]);
    }
  }

  lemma FirstSeenCovers<S>(triples: seq<Triple<S>>)
    ensures var seen := FirstSeen(triples, |triples|);
      && Distinct(seen)
      && (forall id :: id in seen <==> id in Endpoints(triples))
      && |seen| == |Endpoints(triples)|
  {
    var seen := FirstSeen(triples, |triples|);
    FirstSeenIsEndpoints(triples, |triples|);
    EndpointsUpToIsPrefix(triples, |triples|);
    assert triples[..|triples|] == triples;
    DistinctCardinality(seen);
    assert (set x | x in seen) == Endpoints(triples);
  }

  lemma SortKeepsMembers<T>(leq: (T, T) -> bool, s: seq<T>)
    requires Distinct(s)
    ensures Distinct(Sort(leq, s)) && |Sort(leq, s)| == |s|
    ensures forall x :: x in Sort(leq, s) <==> x in s
  {
    SortIsPermutation(leq, s);
    DistinctByMultiset(s, Sort(leq, s));
    forall x ensures x in Sort(leq, s) <==> x in s {
      assert x in Sort(leq, s) <==> x in multiset(Sort(leq, s));
      assert x in s <==> x in multiset(s);
    }
  }

  /** The id list is distinct, sorted, and names exactly the endpoints. */
  lemma NodeIdsAreEndpoints<S>(triples: seq<Triple<S>>)
    ensures var ids := NodeIds(triples);
      && Sorted(IdLeq, ids) && Distinct(ids)
      && |ids| == |Endpoints(triples)| == |FirstSeen(triples, |triples|)|
      && (forall id :: id in ids <==> id in Endpoints(triples))
  {
    FirstSeenCovers(triples);
    IdOrderIsTotal();
    SortIsSorted(IdLeq, FirstSeen(triples, |triples|));
    SortKeepsMembers(IdLeq, FirstSeen(triples, |triples|));
  }

  lemma DistinctByMultiset<T>(a: seq<T>, b: seq<T>)
    requires Distinct(a) && multiset(a) == multiset(b)
    ensures Distinct(b)
  {
    if i, j :| 0 <= i < j < |b| && b[i] == b[j] {
      TwiceInMultiset(b, i, j);
      var x := b[i];
      OnceInMultiset(a, x);
    }
  }

  lemma TwiceInMultiset<T>(s: seq<T>, i: nat, j: nat)
    requires i < j < |s| && s[i] == s[j]
    ensures multiset(s)[s[i]] >= 2
  {
    assert s == s[..i] + [s[i]] + s[i + 1..j] + [s[j]] + s[j + 1..];
  }

  lemma {:induction false} OnceInMultiset<T>(s: seq<T>, x: T)
    requires Distinct(s)
    ensures multiset(s)[x] <= 1
  {
    if s != [] {
      OnceInMultiset(s[1..], x);
      assert s == [s[0]] + s[1..];
      if s[0] == x {
        assert x !in s[1..];
      }
    }
  }

  lemma {:induction false} IndexOfFinds(ids: seq<string>, id: string)
    ensures IndexOf(ids, id) <= |ids|
    ensures IndexOf(ids, id) < |ids| <==> id in ids
    ensures IndexOf(ids, id) < |ids| ==> ids[IndexOf(ids, id)] == id
  {
    if ids != [] && ids[0] != id {
      IndexOfFinds(ids[1..], id);
    }
  }

  lemma {:induction false} IndexOfUnique(ids: seq<string>, i: nat)
    requires Distinct(ids) && i < |ids|
    ensures IndexOf(ids, ids[i]) == i
  {
    if i > 0 {
      assert ids[0] != ids[i];
      IndexOfUnique(ids[1..], i - 1);
    }
  }

  lemma ArcsAreWithin<S>(triples: seq<Triple<S>>)
    ensures Within(Arcs(NodeIds(triples), triples), |NodeIds(triples)|)
  {
    var ids := NodeIds(triples);
    NodeIdsAreEndpoints(triples);
    forall i | 0 <= i < |triples|
      ensures ArcOf(ids, triples[i]).source < |ids| && ArcOf(ids, triples[i]).target < |ids|
    {
      assert triples[i].source in Endpoints(triples) && triples[i].target in Endpoints(triples);
      IndexOfFinds(ids, triples[i].source);
      IndexOfFinds(ids, triples[i].target);
    }
  }

  /** In canonical order sources never decrease, so their indices do not either. */
  lemma CanonicalArcsSorted<S(!new)>(weightLeq: (S, S) -> bool, triples: seq<Triple<S>>)
    requires TotalOrder(weightLeq)
    requires Sorted((a, b) => TripleLeq(weightLeq, a, b), triples)
    ensures SortedBySource(Arcs(NodeIds(triples), triples))
  {
    var ids := NodeIds(triples);
    NodeIdsAreEndpoints(triples);
    IdOrderIsTotal();
    forall i, j | 0 <= i < j < |triples|
      ensures IndexOf(ids, triples[i].source) <= IndexOf(ids, triples[j].source)
    {
      var x, y := triples[i].source, triples[j].source;
      assert TripleLeq(weightLeq, triples[i], triples[j]);
      assert x in Endpoints(triples) && y in Endpoints(triples);
      IndexOfFinds(ids, x);
      IndexOfFinds(ids, y);
      assert IdLeq(x, y);
      assert IndexOf(ids, y) < IndexOf(ids, x) ==> IdLeq(y, x) && x == y;
    }
  }

  lemma NetworkIsWellFormed<S>(A: Arith<S>, plan: Plan<S>, triples: seq<Triple<S>>)
    ensures WellFormed(NetworkOf(A, plan, triples), |NodeIds(triples)|)
  {
    ArcsAreWithin(triples);
  }

  /** Scores of one request: the power iteration from the teleport vector. */
  function Scores<S>(A: Arith<S>, plan: Plan<S>, triples: seq<Triple<S>>): (r: Result<Converged<S>, FailureKind>)
    ensures r.Success? ==> |r.value.scores| == |NodeIds(triples)|
  {
    var net := NetworkOf(A, plan, triples);
    NetworkIsWellFormed(A, plan, triples);
    if !ArcsAccepted(A, net.arcs) then Failure(Integrity)
    else
      IterateKeepsLength(A, net, plan, net.teleport, 0, A.zero);
      Iterate(A, net, plan, net.teleport, 0, A.zero)
  }

  lemma {:induction false} IterateKeepsLength<S>(A: Arith<S>, net: Network<S>, plan: Plan<S>, scores: seq<S>, done: nat, l1: S)
    requires WellFormed(net, |scores|) && done <= plan.maxIterations
    ensures var r := Iterate(A, net, plan, scores, done, l1);
      r.Success? ==> |r.value.scores| == |scores|
    decreases plan.maxIterations - done
  {
    if done < plan.maxIterations {
      var next := Next(A, net, scores);
      IterateKeepsLength(A, net, plan, next, done + 1, Delta(A, next, scores, |scores|));
    }
  }

  /** The answer to one request, without the stored objects that are attached to it. */
  function PprAnswer<S>(A: Arith<S>, plan: Plan<S>, triples: seq<Triple<S>>): Result<Answer<S>, FailureKind> {
    if triples == [] then Success(Answer([], [], 0, true, A.zero))
    else
      var c := Scores(A, plan, triples);
      if c.Failure? then Failure(c.error)
      else
        var ids := NodeIds(triples);
        Success(Answer(
          Best(A, ids, c.value.scores, "passage:", plan.passageLimit),
          Best(A, ids, c.value.scores, "fact:", plan.entityLimit),
          c.value.iterations, c.value.converged, c.value.l1Delta))
  }

  // ---------- seeds ----------

  predicate DistinctIds<S>(seeds: seq<(string, S)>) {
    forall i, j :: 0 <= i < j < |seeds| ==> seeds[i].0 != seeds[j].0
  }

  lemma MemberAt<T>(s: seq<T>, x: T) returns (i: nat)
    requires x in multiset(s)
    ensures i < |s| && s[i] == x
  {
    assert x in s;
    i :| i < |s| && s[i] == x;
  }

  lemma {:induction false} InsertSeed<S>(x: (string, S), s: seq<(string, S)>)
    requires DistinctIds(s)
    requires forall i :: 0 <= i < |s| ==> s[i].0 != x.0
    ensures DistinctIds(Insert(SeedLeq, x, s))
  {
    hide SeedLeq, IdLeq;
    if s != [] && !SeedLeq(x, s[0]) {
      InsertSeed(x, s[1..]);
      InsertMultiset(SeedLeq, x, s[1..]);
      var r := Insert(SeedLeq, x, s[1..]);
      forall i | 0 <= i < |r| ensures r[i].0 != s[0].0 {
        assert r[i] in multiset(r);
        if r[i] != x {
          var k := MemberAt(s[1..], r[i]);
          assert s[k + 1] == r[i];
        }
      }
    }
  }

  /** Sorting seeds keeps their ids distinct. */
  lemma {:induction false} SortedSeeds<S>(seeds: seq<(string, S)>)
    requires DistinctIds(seeds)
    ensures DistinctIds(Sort(SeedLeq, seeds))
  {
    if seeds != [] {
      SortedSeeds(seeds[1..]);
      SortIsPermutation(SeedLeq, seeds[1..]);
      var r := Sort(SeedLeq, seeds[1..]);
      forall i | 0 <= i < |r| ensures r[i].0 != seeds[0].0 {
        assert r[i] in multiset(r);
        var k := MemberAt(seeds[1..], r[i]);
        assert seeds[k + 1] == r[i];
      }
      InsertSeed(seeds[0], r);
    }
  }
}
