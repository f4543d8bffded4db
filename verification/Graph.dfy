/** The stored graph records, and the number of out-edges per source that a CSR layout is built from. */
module Graph {
  import opened Wrappers
  import opened Text
  import opened StableSort

  /** `S` is the type of weights: a 64-bit float in the source, opaque or real here. */
  datatype GraphEdge<+S> = GraphEdge(
    edgeId: string,
    corpusId: string,
    sourceNodeId: string,
    targetNodeId: string,
    relation: string,
    weight: S,
    bridgeKind: Option<string>)

  /** What ranking reads from an edge. */
  datatype Triple<+S> = Triple(source: string, target: string, weight: S)

  function TripleOf<S>(e: GraphEdge<S>): Triple<S> {
    Triple(e.sourceNodeId, e.targetNodeId, e.weight)
  }

  function Triples<S>(edges: seq<GraphEdge<S>>): seq<Triple<S>> {
    seq(|edges|, i requires 0 <= i < |edges| => TripleOf(edges[i]))
  }

  /** The edges of one corpus, in the order they are visited. */
  function OfCorpus<S>(edges: seq<GraphEdge<S>>, corpusId: string): seq<GraphEdge<S>> {
    Filter((e: GraphEdge<S>) => e.corpusId == corpusId, edges)
  }

  predicate IdLess(a: string, b: string) {
    !IdLeq(b, a)
  }

  /** The canonical edge order: source, then target, then weight. */
  predicate TripleLeq<S>(weightLeq: (S, S) -> bool, a: Triple<S>, b: Triple<S>) {
    IdLess(a.source, b.source)
    || (a.source == b.source
        && (IdLess(a.target, b.target) || (a.target == b.target && weightLeq(a.weight, b.weight))))
  }

  lemma TripleOrderIsTotal<S(!new)>(weightLeq: (S, S) -> bool)
    requires TotalOrder(weightLeq)
    ensures TotalOrder((a, b) => TripleLeq(weightLeq, a, b))
  {
    IdOrderIsTotal();
    var leq := (a, b) => TripleLeq(weightLeq, a, b);
    forall a, b ensures leq(a, b) || leq(b, a) {
      assert IdLeq(a.source, b.source) || IdLeq(b.source, a.source);
      assert IdLeq(a.target, b.target) || IdLeq(b.target, a.target);
      assert weightLeq(a.weight, b.weight) || weightLeq(b.weight, a.weight);
    }
    forall a, b, c | leq(a, b) && leq(b, c) ensures leq(a, c) {
      LessTransitive(a.source, b.source, c.source);
      LessTransitive(a.target, b.target, c.target);
    }
    forall a, b | leq(a, b) && leq(b, a) ensures a == b {
      LessAsymmetric(a.source, b.source);
      LessAsymmetric(a.target, b.target);
    }
  }

  lemma LessTransitive(a: string, b: string, c: string)
    ensures IdLess(a, b) && IdLess(b, c) ==> IdLess(a, c)
  {
    IdOrderIsTotal();
    if IdLess(a, b) && IdLess(b, c) {
      assert IdLeq(a, b) && IdLeq(b, c);
    }
  }

  lemma LessAsymmetric(a: string, b: string)
    ensures !(IdLess(a, b) && IdLess(b, a)) && !IdLess(a, a)
  {
    IdOrderIsTotal();
    assert IdLeq(a, b) || IdLeq(b, a);
  }

  /** Sorting edges and then reading them off is sorting what is read off. */
  lemma {:induction false} SortTriples<S>(weightLeq: (S, S) -> bool, edges: seq<GraphEdge<S>>)
    ensures Triples(Sort((a, b) => TripleLeq(weightLeq, TripleOf(a), TripleOf(b)), edges))
         == Sort((a, b) => TripleLeq(weightLeq, a, b), Triples(edges))
  {
    var edgeLeq := (a: GraphEdge<S>, b: GraphEdge<S>) => TripleLeq(weightLeq, TripleOf(a), TripleOf(b));
    var leq := (a: Triple<S>, b: Triple<S>) => TripleLeq(weightLeq, a, b);
    if edges == [] {
      assert Triples(edges) == [];
    } else {
      SortTriples(weightLeq, edges[1..]);
      InsertTriple(weightLeq, edges[0], Sort(edgeLeq, edges[1..]));
      assert Triples(edges)[1..] == Triples(edges[1..]);
    }
  }

  lemma {:induction false} InsertTriple<S>(weightLeq: (S, S) -> bool, e: GraphEdge<S>, s: seq<GraphEdge<S>>)
    ensures Triples(Insert((a, b) => TripleLeq(weightLeq, TripleOf(a), TripleOf(b)), e, s))
         == Insert((a, b) => TripleLeq(weightLeq, a, b), TripleOf(e), Triples(s))
  {
    var edgeLeq := (a: GraphEdge<S>, b: GraphEdge<S>) => TripleLeq(weightLeq, TripleOf(a), TripleOf(b));
    var leq := (a: Triple<S>, b: Triple<S>) => TripleLeq(weightLeq, a, b);
    if s == [] || edgeLeq(e, s[0]) {
      assert Triples([e] + s) == [TripleOf(e)] + Triples(s);
    } else {
      InsertTriple(weightLeq, e, s[1..]);
      var r := Insert(edgeLeq, e, s[1..]);
      assert Triples([s[0]] + r) == [TripleOf(s[0])] + Triples(r);
      assert Triples(s)[1..] == Triples(s[1..]);
    }
  }
}
