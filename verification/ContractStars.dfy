/**
  Where the static and the dynamic reading of a pointer part ways: an object
  field named `*` is a field to the schema and a wildcard to evaluation. Exactly
  when that is harmless, for one object and for a whole path.
 */
module ContractStars {
  import opened Wrappers
  import opened Json
  import opened ContractSchema

  // ---------- when the side condition holds, and when it matters ----------

  /** No object of the schema declares a field named `*`. */
  predicate WithoutStarFields(node: ContractNode) {
    match node
    case ArrayNode(item) => WithoutStarFields(item)
    case TupleNode(items) => forall i :: 0 <= i < |items| ==> WithoutStarFields(items[i])
    case OptionalNode(item) => WithoutStarFields(item)
    case ObjectNode(fields) => WILDCARD !in fields && forall f :: f in fields ==> WithoutStarFields(fields[f])
    case _ => true
  }

  predicate DomainWithoutStars(domain: Domain) {
    forall i :: 0 <= i < |domain| ==> WithoutStarFields(domain[i].1)
  }

  lemma {:induction false} UnwrapWithoutStars(node: ContractNode, domain: Domain, limit: nat)
    requires limit <= |domain| && WithoutStarFields(node) && DomainWithoutStars(domain)
    ensures var at := Unwrap(node, domain, limit); at.Some? ==> WithoutStarFields(at.value.node)
    decreases limit, node
  {
    match node
    case OptionalNode(value) => UnwrapWithoutStars(value, domain, limit);
    case ExternalRef(_, kind) =>
      var i := Resolve(domain, kind, limit);
      if i < limit {
        UnwrapWithoutStars(domain[i].1, domain, i);
      }
    case _ =>
  }

  /** A schema without such fields never puts a wildcard on an object, whatever path it accepts. */
  lemma {:induction false} NoStarFieldsSuffice(p: Place, raws: seq<string>, domain: Domain)
    requires p.limit <= |domain| && WithoutStarFields(p.node) && DomainWithoutStars(domain)
    requires StructuralAt(p, raws, domain).Some?
    ensures StarsAgree(p, raws, domain)
    decreases |raws|
  {
    if raws != [] {
      var at := Unwrap(p.node, domain, p.limit).value;
      UnwrapWithoutStars(p.node, domain, p.limit);
      var child := ChildOf(at, Decode(raws[0]).value).value;
      NoStarFieldsSuffice(child, raws[1..], domain);
    }
  }

  const STAR_NODE := ObjectNode(map["*" := NumberNode, "a" := StringNode])
  const STAR_VALUE := Obj(map["*" := Num(Int(1)), "a" := Str("x")])

  /** With such a field soundness fails: the schema reads it as a field, evaluation as a wildcard. */
  lemma StarFieldUnsound(keys: KeyOrder)
    requires Listed(keys)
    ensures Conforms(STAR_NODE, STAR_VALUE, [], 0) && !Conforms(NumberNode, Str("x"), [], 0)
    ensures StructuralContractAt(STAR_NODE, "/*", []) == Some(Place(NumberNode, 0))
    ensures var r := Walk([STAR_VALUE], RawSegments("/*"), keys); r.Success? && Str("x") in r.value
  {
    hide Split, Decode, RawSegments, Members, ValidPointer, Walk, Listed;
    StarPath();
    StarSelects(keys);
    assert Place(STAR_NODE, 0).node == STAR_NODE;
    assert StructuralAt(Place(NumberNode, 0), ["*"][1..], []) == Some(Place(NumberNode, 0));
    assert StructuralChild(Place(STAR_NODE, 0), "*", []) == Some(Place(NumberNode, 0));
  }

  lemma StarSelects(keys: KeyOrder)
    requires Listed(keys)
    requires Decode("*") == Some("*")
    ensures Walk([STAR_VALUE], ["*"], keys).Success? && Str("x") in Walk([STAR_VALUE], ["*"], keys).value
  {
    hide Decode;
    var order := keys(STAR_VALUE.fields.Keys);
    assert "a" in STAR_VALUE.fields.Keys;
    MembersInclude(STAR_VALUE.fields, order, "a");
    assert SelectAll([STAR_VALUE], "*", keys, 0) == Success([]);
    assert SelectAll([STAR_VALUE], "*", keys, 1) == Success([] + Members(STAR_VALUE, keys));
    assert Walk([STAR_VALUE], ["*"], keys) == Walk([] + Members(STAR_VALUE, keys), ["*"][1..], keys);
  }

  lemma StarPath()
    ensures RawSegments("/*") == ["*"] && ValidPointer("/*") && Decode("*") == Some("*")
  {
    var path, star := "/*", "*";
    assert path[1..] == star && star[1..] == "";
    assert Split("") == [""] && Decode("") == Some("");
    assert [star[0]] + Split("")[0] == star;
    assert Split(star) == [star] + Split("")[1..];
    assert [star[0]] + "" == star;
  }

  lemma {:induction false} MembersInclude(fields: map<string, Json>, order: seq<string>, f: string)
    requires f in order && f in fields
    ensures fields[f] in MembersOf(fields, order)
  {
    if order[0] != f {
      MembersInclude(fields, order[1..], f);
    }
  }

  // ---------- exactly when a wildcard on an object is harmless ----------

  /** Every member of every conforming value fits the field named `*`. */
  ghost predicate MembersFitStar(at: Place, domain: Domain)
    requires at.limit <= |domain| && at.node.ObjectNode? && WILDCARD in at.node.fields
  {
    forall v, f :: Conforms(at.node, v, domain, at.limit) && f in v.fields ==>
      Conforms(at.node.fields[WILDCARD], v.fields[f], domain, at.limit)
  }

  /** A conforming object with one member replaced by another conforming one. */
  lemma WithMember(at: Place, w: Json, f: string, u: Json, domain: Domain)
    requires at.limit <= |domain| && at.node.ObjectNode? && Conforms(at.node, w, domain, at.limit)
    requires f in at.node.fields && Conforms(at.node.fields[f], u, domain, at.limit)
    ensures Conforms(at.node, Obj(w.fields[f := u]), domain, at.limit)
  {
  }

  /** For an object with at least one conforming value, the members fit if and only if the fields do. */
  lemma StarFieldExact(at: Place, w: Json, domain: Domain)
    requires at.limit <= |domain| && at.node.ObjectNode? && WILDCARD in at.node.fields
    requires Conforms(at.node, w, domain, at.limit)
    ensures MembersFitStar(at, domain) <==> FieldsFitStar(at, domain)
  {
    if MembersFitStar(at, domain) {
      forall f, u | f in at.node.fields && Conforms(at.node.fields[f], u, domain, at.limit)
        ensures Conforms(at.node.fields[WILDCARD], u, domain, at.limit)
      {
        WithMember(at, w, f, u, domain);
        assert f in Obj(w.fields[f := u]).fields;
      }
    }
  }

  // ---------- whole frontiers, value by value ----------

  lemma {:induction false} SelectAppend(xs: seq<Json>, ys: seq<Json>, segment: string, keys: KeyOrder, k: nat)
    requires k <= |ys|
    ensures var whole, left, right :=
        SelectAll(xs + ys, segment, keys, |xs| + k), SelectAll(xs, segment, keys, |xs|), SelectAll(ys, segment, keys, k);
      && (whole.Success? <==> left.Success? && right.Success?)
      && (whole.Success? ==> whole.value == left.value + right.value)
  {
    hide Select;
    if k == 0 {
      SelectPrefix(xs, ys, segment, keys, |xs|);
    } else {
      SelectAppend(xs, ys, segment, keys, k - 1);
      assert (xs + ys)[|xs| + k - 1] == ys[k - 1];
    }
  }

  lemma {:induction false} SelectPrefix(xs: seq<Json>, ys: seq<Json>, segment: string, keys: KeyOrder, k: nat)
    requires k <= |xs|
    ensures SelectAll(xs + ys, segment, keys, k) == SelectAll(xs, segment, keys, k)
  {
    if k > 0 {
      SelectPrefix(xs, ys, segment, keys, k - 1);
    }
  }

  /** Walking two frontiers at once is walking each. */
  lemma {:induction false} WalkAppend(xs: seq<Json>, ys: seq<Json>, raws: seq<string>, keys: KeyOrder)
    ensures var whole, left, right := Walk(xs + ys, raws, keys), Walk(xs, raws, keys), Walk(ys, raws, keys);
      && (whole.Success? <==> left.Success? && right.Success?)
      && (whole.Success? ==> whole.value == left.value + right.value)
    decreases |raws|
  {
    if raws != [] && Decode(raws[0]).Some? {
      var segment := Decode(raws[0]).value;
      SelectAppend(xs, ys, segment, keys, |ys|);
      var left, right := SelectAll(xs, segment, keys, |xs|), SelectAll(ys, segment, keys, |ys|);
      if left.Success? && right.Success? {
        WalkAppend(left.value, right.value, raws[1..], keys);
      }
    }
  }

  predicate Decodable(raws: seq<string>) {
    forall i :: 0 <= i < |raws| ==> Decode(raws[i]).Some?
  }

  lemma {:induction false} WalkNothing(raws: seq<string>, keys: KeyOrder)
    requires Decodable(raws)
    ensures Walk([], raws, keys) == Success([])
    decreases |raws|
  {
    if raws != [] {
      WalkNothing(raws[1..], keys);
    }
  }

  /** A frontier is walked exactly when each of its values is, and selects what each of them selects. */
  lemma {:induction false} WalkEach(xs: seq<Json>, raws: seq<string>, keys: KeyOrder)
    requires Decodable(raws)
    ensures Walk(xs, raws, keys).Success? <==> forall i :: 0 <= i < |xs| ==> Walk([xs[i]], raws, keys).Success?
    ensures Walk(xs, raws, keys).Success? ==>
      forall i, y :: 0 <= i < |xs| && y in Walk([xs[i]], raws, keys).value ==> y in Walk(xs, raws, keys).value
    ensures Walk(xs, raws, keys).Success? ==>
      forall y :: y in Walk(xs, raws, keys).value ==> exists i :: 0 <= i < |xs| && y in Walk([xs[i]], raws, keys).value
    decreases |xs|
  {
    hide Walk, Decodable;
    if xs == [] {
      WalkNothing(raws, keys);
    } else {
      var last := |xs| - 1;
      var before := xs[..last];
      WalkEach(before, raws, keys);
      WalkAppend(before, [xs[last]], raws, keys);
      assert xs == before + [xs[last]];
      assert forall i :: 0 <= i < last ==> before[i] == xs[i];
    }
  }

  lemma WalkStep(v: Json, raws: seq<string>, keys: KeyOrder)
    requires raws != [] && Decode(raws[0]).Some?
    ensures var next := Select(v, Decode(raws[0]).value, keys);
      Walk([v], raws, keys) == if next.Failure? then next else Walk(next.value, raws[1..], keys)
  {
    var segment := Decode(raws[0]).value;
    hide Select, Decode;
    assert SelectAll([v], segment, keys, 0) == Success([]);
    var next := Select(v, segment, keys);
    if next.Success? {
      assert [] + next.value == next.value;
    }
  }

  lemma {:induction false} WalkSplits(xs: seq<Json>, a: seq<string>, b: seq<string>, keys: KeyOrder)
    ensures var first := Walk(xs, a, keys);
      Walk(xs, a + b, keys) == if first.Failure? then first else Walk(first.value, b, keys)
    decreases |a|
  {
    if a == [] {
      assert a + b == b;
    } else {
      assert (a + b)[0] == a[0] && (a + b)[1..] == a[1..] + b;
      if Decode(a[0]).Some? {
        var next := SelectAll(xs, Decode(a[0]).value, keys, |xs|);
        if next.Success? {
          WalkSplits(next.value, a[1..], b, keys);
        }
      }
    }
  }

  // ---------- one value below another, as the schema reads the path ----------

  ghost predicate OneStep(v: Json, segment: string, c: Json) {
    match v
    case Arr(items) => exists i :: 0 <= i < |items| && items[i] == c && (segment == WILDCARD || ParseIndex(segment) == Some(i))
    case Obj(fields) => segment in fields && fields[segment] == c
    case _ => false
  }

  /** `w` lies below `v` under the path, a `*` on an object read as the field of that name. */
  ghost predicate Reached(v: Json, raws: seq<string>, w: Json)
    decreases |raws|
  {
    if raws == [] then v == w
    else Decode(raws[0]).Some? && exists c :: OneStep(v, Decode(raws[0]).value, c) && Reached(c, raws[1..], w)
  }

  ghost predicate Listed(keys: KeyOrder) {
    forall s, f :: f in keys(s) <==> f in s
  }

  /** `after` differs from `before`, both below one segment, in the one child `c`. */
  ghost predicate Swapped(before: Json, after: Json, segment: string, c: Json, keys: KeyOrder) {
    var was, now := Select(before, segment, keys), Select(after, segment, keys);
    !after.Null?
    && (was.Success? ==> now.Success? && c in now.value && forall y :: y in now.value ==> y == c || y in was.value)
  }

  /** Replaces the child that one segment reaches. */
  lemma Swap(at: Place, segment: string, v: Json, was: Json, c: Json, domain: Domain, keys: KeyOrder) returns (after: Json)
    requires at.limit <= |domain| && Conforms(at.node, v, domain, at.limit) && Listed(keys)
    requires ChildOf(at, segment).Some? && OneStep(v, segment, was)
    requires Conforms(ChildOf(at, segment).value.node, c, domain, at.limit)
    ensures Conforms(at.node, after, domain, at.limit) && Swapped(v, after, segment, c, keys)
  {
    hide ParseIndex, CanonicalIndex, Members;
    match at.node
    case ArrayNode(_) => var i; i, after := SwapItem(v, segment, was, c, keys);
    case TupleNode(_) => var i; i, after := SwapItem(v, segment, was, c, keys);
    case ObjectNode(_) =>
      after := Obj(v.fields[segment := c]);
      WithMember(at, v, segment, c, domain);
      SwapMember(v, segment, c, keys);
  }

  lemma SwapItem(v: Json, segment: string, was: Json, c: Json, keys: KeyOrder) returns (i: nat, after: Json)
    requires v.Arr? && OneStep(v, segment, was)
    ensures i < |v.items| && after == Arr(v.items[i := c])
    ensures segment == WILDCARD || ParseIndex(segment) == Some(i)
    ensures Swapped(v, after, segment, c, keys)
  {
    hide ParseIndex;
    i :| 0 <= i < |v.items| && v.items[i] == was && (segment == WILDCARD || ParseIndex(segment) == Some(i));
    after := Arr(v.items[i := c]);
    assert after.items[i] == c;
    forall y | y in after.items ensures y == c || y in v.items {
      var j :| 0 <= j < |after.items| && after.items[j] == y;
    }
  }

  lemma SwapMember(v: Json, segment: string, c: Json, keys: KeyOrder)
    requires v.Obj? && segment in v.fields && Listed(keys)
    ensures Swapped(v, Obj(v.fields[segment := c]), segment, c, keys)
  {
    if segment == WILDCARD {
      SwapAnyMember(v, segment, c, keys);
    }
  }

  /** A wildcard sees a new member, and otherwise only old ones. */
  lemma SwapAnyMember(v: Json, f: string, c: Json, keys: KeyOrder)
    requires v.Obj? && Listed(keys)
    ensures Swapped(v, Obj(v.fields[f := c]), WILDCARD, c, keys)
  {
    hide Members;
    var after := Obj(v.fields[f := c]);
    MembersHave(after, f, keys);
    forall y | y in Members(after, keys) ensures y == c || y in Members(v, keys) {
      var g := MemberIs(after, y, keys);
      if g != f {
        MembersHave(v, g, keys);
      }
    }
  }

  lemma MemberIs(v: Json, y: Json, keys: KeyOrder) returns (f: string)
    requires v.Obj? && y in Members(v, keys)
    ensures f in v.fields && v.fields[f] == y
  {
    var i :| 0 <= i < |Members(v, keys)| && Members(v, keys)[i] == y;
    MembersAreFields(v.fields, keys(v.fields.Keys), i);
    f :| f in v.fields && v.fields[f] == y;
  }

  lemma MembersHave(v: Json, f: string, keys: KeyOrder)
    requires Listed(keys) && v.Obj? && f in v.fields
    ensures v.fields[f] in Members(v, keys)
  {
    MembersInclude(v.fields, keys(v.fields.Keys), f);
  }

  /** A value that fits what a node unwraps to fits the node, when some value fits the node at all. */
  lemma {:induction false} UnwrapBack(node: ContractNode, v: Json, after: Json, domain: Domain, limit: nat)
    requires limit <= |domain| && Conforms(node, v, domain, limit) && Unwrap(node, domain, limit).Some? && !after.Null?
    requires var at := Unwrap(node, domain, limit).value; at.limit <= |domain| && Conforms(at.node, after, domain, at.limit)
    ensures Conforms(node, after, domain, limit)
    decreases limit, node
  {
    match node
    case OptionalNode(item) => UnwrapBack(item, v, after, domain, limit);
    case ExternalRef(_, kind) =>
      var i := Resolve(domain, kind, limit);
      UnwrapBack(domain[i].1, v, after, domain, i);
    case _ =>
  }

  /** A swapped child whose own walk succeeds leaves the walk of the whole a success that includes it. */
  lemma SwappedWalks(before: Json, after: Json, raws: seq<string>, c: Json, keys: KeyOrder)
    requires raws != [] && Decodable(raws) && Swapped(before, after, Decode(raws[0]).value, c, keys)
    requires Walk([before], raws, keys).Success? && Walk([c], raws[1..], keys).Success?
    ensures Walk([after], raws, keys).Success?
    ensures forall y :: y in Walk([c], raws[1..], keys).value ==> y in Walk([after], raws, keys).value
  {
    var segment, rest := Decode(raws[0]).value, raws[1..];
    WalkStep(before, raws, keys);
    WalkStep(after, raws, keys);
    var was, now := Select(before, segment, keys).value, Select(after, segment, keys).value;
    assert Decodable(rest);
    hide Walk, Select, Decode, Decodable;
    WalkEach(was, rest, keys);
    forall i | 0 <= i < |now| ensures Walk([now[i]], rest, keys).Success? {
      assert now[i] in now;
    }
    WalkEach(now, rest, keys);
    var at :| 0 <= at < |now| && now[at] == c;
  }

  /** The rest of a path splits off its first segment. */
  lemma TailSplits(raws: seq<string>, tail: seq<string>)
    requires raws != []
    ensures (raws + tail)[0] == raws[0] && (raws + tail)[1..] == raws[1..] + tail
  {
  }

  /**
    Replaces the value that the path reaches: the result conforms, and where the
    walk goes on it selects below the new value what a walk of the value itself selects.
   */
  lemma {:induction false} Plug(p: Place, raws: seq<string>, tail: seq<string>, v: Json, w: Json, u: Json, domain: Domain,
                                keys: KeyOrder)
    returns (after: Json)
    requires p.limit <= |domain| && Conforms(p.node, v, domain, p.limit) && Listed(keys)
    requires StructuralAt(p, raws, domain).Some? && Decodable(raws + tail) && Reached(v, raws, w)
    requires Fits(StructuralAt(p, raws, domain).value, u, domain)
    requires Walk([v], raws + tail, keys).Success? && Walk([u], tail, keys).Success?
    ensures Conforms(p.node, after, domain, p.limit) && Walk([after], raws + tail, keys).Success?
    ensures forall y :: y in Walk([u], tail, keys).value ==> y in Walk([after], raws + tail, keys).value
    decreases |raws|
  {
    if raws == [] {
      assert raws + tail == tail;
      return u;
    }
    var segment, at, rest := Decode(raws[0]).value, Unwrap(p.node, domain, p.limit).value, raws[1..];
    var c :| OneStep(v, segment, c) && Reached(c, rest, w);
    var child := ChildOf(at, segment).value;
    UnwrapConforms(p.node, v, domain, p.limit);
    StepConforms(at, segment, v, c, domain);
    TailSplits(raws, tail);
    StepWalks(v, raws + tail, c, keys);
    RestDecodes(raws + tail);
    hide Conforms, Walk, Unwrap, ChildOf, OneStep, Decode, Decodable, Swapped, Listed;
    var below := Plug(child, rest, tail, c, w, u, domain, keys);
    after := Swap(at, segment, v, c, below, domain, keys);
    SwappedIsNotNull(v, after, segment, below, keys);
    UnwrapBack(p.node, v, after, domain, p.limit);
    SwappedWalks(v, after, raws + tail, below, keys);
  }

  lemma RestDecodes(raws: seq<string>)
    requires raws != [] && Decodable(raws)
    ensures Decodable(raws[1..])
  {
  }

  /** What the schema's reading reaches is walked on when the whole is. */
  lemma {:induction false} ReachedWalks(v: Json, raws: seq<string>, tail: seq<string>, w: Json, keys: KeyOrder)
    requires Decodable(raws + tail) && Reached(v, raws, w) && Listed(keys) && Walk([v], raws + tail, keys).Success?
    ensures Walk([w], tail, keys).Success?
    decreases |raws|
  {
    if raws == [] {
      assert raws + tail == tail;
    } else {
      var c :| OneStep(v, Decode(raws[0]).value, c) && Reached(c, raws[1..], w);
      TailSplits(raws, tail);
      StepWalks(v, raws + tail, c, keys);
      RestDecodes(raws + tail);
      ReachedWalks(c, raws[1..], tail, w, keys);
    }
  }

  lemma SwappedIsNotNull(before: Json, after: Json, segment: string, c: Json, keys: KeyOrder)
    requires Swapped(before, after, segment, c, keys)
    ensures !after.Null?
  {
  }

  lemma {:induction false} AcceptedDecodes(p: Place, raws: seq<string>, domain: Domain)
    requires p.limit <= |domain| && StructuralAt(p, raws, domain).Some?
    ensures Decodable(raws)
    decreases |raws|
  {
    if raws != [] {
      var at := Unwrap(p.node, domain, p.limit).value;
      AcceptedDecodes(ChildOf(at, Decode(raws[0]).value).value, raws[1..], domain);
      assert forall i :: 0 < i < |raws| ==> raws[i] == raws[1..][i - 1];
    }
  }

  /** What the schema's reading reaches conforms to the schema's child. */
  lemma StepConforms(at: Place, segment: string, v: Json, c: Json, domain: Domain)
    requires at.limit <= |domain| && Conforms(at.node, v, domain, at.limit)
    requires ChildOf(at, segment).Some? && OneStep(v, segment, c)
    ensures var child := ChildOf(at, segment).value; child.limit == at.limit && Conforms(child.node, c, domain, at.limit)
  {
    hide ParseIndex, CanonicalIndex;
  }

  /** What the schema's reading reaches is walked when the whole is. */
  lemma StepWalks(v: Json, raws: seq<string>, c: Json, keys: KeyOrder)
    requires raws != [] && Decodable(raws) && OneStep(v, Decode(raws[0]).value, c) && Listed(keys)
    requires Walk([v], raws, keys).Success?
    ensures Walk([c], raws[1..], keys).Success?
  {
    var segment, rest := Decode(raws[0]).value, raws[1..];
    WalkStep(v, raws, keys);
    assert Decodable(rest);
    StepSelected(v, segment, c, keys);
    hide Walk, Select, Decode, Decodable;
    var selected := Select(v, segment, keys).value;
    WalkEach(selected, rest, keys);
    var i :| 0 <= i < |selected| && selected[i] == c;
  }

  lemma StepSelected(v: Json, segment: string, c: Json, keys: KeyOrder)
    requires OneStep(v, segment, c) && Select(v, segment, keys).Success? && Listed(keys)
    ensures c in Select(v, segment, keys).value
  {
    hide ParseIndex;
    if v.Obj? && segment == WILDCARD {
      MembersHave(v, segment, keys);
    }
  }

  // ---------- exactly when, for a path ----------

  lemma {:induction false} StructuralSplits(p: Place, a: seq<string>, b: seq<string>, domain: Domain)
    requires p.limit <= |domain|
    ensures var first := StructuralAt(p, a, domain);
      StructuralAt(p, a + b, domain) == if first.None? then None else StructuralAt(first.value, b, domain)
    decreases |a|
  {
    if a == [] {
      assert a + b == b;
    } else {
      assert (a + b)[0] == a[0] && (a + b)[1..] == a[1..] + b;
      if Decode(a[0]).Some? {
        var child := StructuralChild(p, Decode(a[0]).value, domain);
        if child.Some? && child.value.limit <= |domain| {
          StructuralSplits(child.value, a[1..], b, domain);
        }
      }
    }
  }

  lemma {:induction false} ReachedConforms(p: Place, raws: seq<string>, v: Json, w: Json, domain: Domain)
    requires p.limit <= |domain| && Conforms(p.node, v, domain, p.limit)
    requires StructuralAt(p, raws, domain).Some? && Reached(v, raws, w)
    ensures Fits(StructuralAt(p, raws, domain).value, w, domain)
    decreases |raws|
  {
    if raws != [] {
      hide Conforms, Unwrap, ChildOf, OneStep, Decode;
      var segment, at := Decode(raws[0]).value, Unwrap(p.node, domain, p.limit).value;
      var c :| OneStep(v, segment, c) && Reached(c, raws[1..], w);
      UnwrapConforms(p.node, v, domain, p.limit);
      StepConforms(at, segment, v, c, domain);
      ReachedConforms(ChildOf(at, segment).value, raws[1..], c, w, domain);
    }
  }

  /** Whatever conforms and is walked without an error selects only what fits the schema's target. */
  ghost predicate AlwaysFits(p: Place, raws: seq<string>, domain: Domain, keys: KeyOrder)
    requires p.limit <= |domain| && StructuralAt(p, raws, domain).Some?
  {
    forall v, y :: Conforms(p.node, v, domain, p.limit) && Selects(v, raws, y, keys) ==>
      Fits(StructuralAt(p, raws, domain).value, y, domain)
  }

  /** The object under an accepted path that ends there with a wildcard. */
  function ObjectAt(p: Place, raws: seq<string>, domain: Domain): (r: Option<Place>)
    requires p.limit <= |domain|
    ensures r.Some? ==> StructuralAt(p, raws, domain).Some? && r.value.limit <= |domain|
    ensures r.Some? ==> r.value.node.ObjectNode? && WILDCARD in r.value.node.fields
  {
    var end := StructuralAt(p, raws, domain);
    if end.None? then None
    else
      var at := Unwrap(end.value.node, domain, end.value.limit);
      if at.Some? && at.value.limit <= |domain| && at.value.node.ObjectNode? && WILDCARD in at.value.node.fields then at else None
  }

  /** Below such an object the accepted path continues to its field `*`. */
  lemma StarTarget(p: Place, raws: seq<string>, domain: Domain)
    requires p.limit <= |domain| && ObjectAt(p, raws, domain).Some?
    ensures var at := ObjectAt(p, raws, domain).value;
      StructuralAt(p, raws + [WILDCARD], domain) == Some(Place(at.node.fields[WILDCARD], at.limit))
  {
    StarPath();
    hide Decode, RawSegments, ValidPointer;
    var end, at := StructuralAt(p, raws, domain).value, ObjectAt(p, raws, domain).value;
    StructuralSplits(p, raws, [WILDCARD], domain);
    assert ChildOf(at, WILDCARD) == Some(Place(at.node.fields[WILDCARD], at.limit));
    assert [WILDCARD][1..] == [];
    assert StructuralAt(end, [WILDCARD], domain) == StructuralAt(Place(at.node.fields[WILDCARD], at.limit), [], domain);
  }

  /** Whatever a declared field may hold, the rest of the path selects from it only what fits the target. */
  ghost predicate FieldsLeadTo(at: Place, rest: seq<string>, target: Place, domain: Domain, keys: KeyOrder) {
    && at.limit <= |domain| && at.node.ObjectNode?
    && forall f, u, y ::
         f in at.node.fields && Conforms(at.node.fields[f], u, domain, at.limit) && Selects(u, rest, y, keys) ==>
         Fits(target, y, domain)
  }

  /** The path selects `y` below `u`. */
  ghost predicate Selects(u: Json, raws: seq<string>, y: Json, keys: KeyOrder) {
    Walk([u], raws, keys).Success? && y in Walk([u], raws, keys).value
  }

  /** At the end of a path this is the condition on the fields alone. */
  lemma EndLeadsTo(at: Place, domain: Domain, keys: KeyOrder)
    requires at.limit <= |domain| && at.node.ObjectNode? && WILDCARD in at.node.fields
    ensures FieldsLeadTo(at, [], Place(at.node.fields[WILDCARD], at.limit), domain, keys) <==> FieldsFitStar(at, domain)
  {
    if FieldsLeadTo(at, [], Place(at.node.fields[WILDCARD], at.limit), domain, keys) {
      forall f, u | f in at.node.fields && Conforms(at.node.fields[f], u, domain, at.limit)
        ensures Conforms(at.node.fields[WILDCARD], u, domain, at.limit)
      {
        assert Selects(u, [], u, keys);
        assert Fits(Place(at.node.fields[WILDCARD], at.limit), u, domain);
      }
    }
  }

  /**
    For the first wildcard that an accepted path puts on an object, wherever the
    path goes on from there: the selections of all conforming values fit the
    schema's target if and only if the rest of the path leads there from whatever
    a declared field of the object may hold. Some conforming value has to reach
    the object and be walked.
   */
  lemma StarPathExact(p: Place, raws: seq<string>, rest: seq<string>, v: Json, w: Json, domain: Domain, keys: KeyOrder)
    requires p.limit <= |domain| && Listed(keys) && ObjectAt(p, raws, domain).Some? && StarsAgree(p, raws, domain)
    requires StructuralAt(p, raws + ([WILDCARD] + rest), domain).Some?
    requires Conforms(p.node, v, domain, p.limit) && Reached(v, raws, w)
    requires Walk([v], raws + ([WILDCARD] + rest), keys).Success?
    ensures var path := raws + ([WILDCARD] + rest);
      AlwaysFits(p, path, domain, keys)
      <==> FieldsLeadTo(ObjectAt(p, raws, domain).value, rest, StructuralAt(p, path, domain).value, domain, keys)
  {
    var at, path := ObjectAt(p, raws, domain).value, raws + ([WILDCARD] + rest);
    AcceptedDecodes(p, path, domain);
    hide StructuralAt, StarsAgree, ObjectAt, FieldsLeadTo, AlwaysFits, Reached, Walk, Conforms, Decodable, Listed;
    if FieldsLeadTo(at, rest, StructuralAt(p, path, domain).value, domain, keys) {
      FitsWhenFieldsLead(p, raws, rest, domain, keys);
    } else {
      Misfit(p, raws, rest, v, w, domain, keys);
    }
  }

  /** When the path ends at the wildcard, that is the condition that every declared field fits the field named `*`. */
  lemma StarEndExact(p: Place, raws: seq<string>, v: Json, w: Json, domain: Domain, keys: KeyOrder)
    requires p.limit <= |domain| && Listed(keys) && ObjectAt(p, raws, domain).Some? && StarsAgree(p, raws, domain)
    requires Conforms(p.node, v, domain, p.limit) && Reached(v, raws, w) && Walk([v], raws + [WILDCARD], keys).Success?
    ensures StructuralAt(p, raws + [WILDCARD], domain).Some?
    ensures AlwaysFits(p, raws + [WILDCARD], domain, keys) <==> FieldsFitStar(ObjectAt(p, raws, domain).value, domain)
  {
    hide StructuralAt, StarsAgree, ObjectAt, FieldsLeadTo, AlwaysFits, Reached, Walk, Conforms, Listed, FieldsFitStar;
    StarTarget(p, raws, domain);
    assert [WILDCARD] + [] == [WILDCARD];
    StarPathExact(p, raws, [], v, w, domain, keys);
    EndLeadsTo(ObjectAt(p, raws, domain).value, domain, keys);
  }

  lemma FitsWhenFieldsLead(p: Place, raws: seq<string>, rest: seq<string>, domain: Domain, keys: KeyOrder)
    requires p.limit <= |domain| && ObjectAt(p, raws, domain).Some? && StarsAgree(p, raws, domain)
    requires var path := raws + ([WILDCARD] + rest);
      Decodable(path) && StructuralAt(p, path, domain).Some?
      && FieldsLeadTo(ObjectAt(p, raws, domain).value, rest, StructuralAt(p, path, domain).value, domain, keys)
    ensures AlwaysFits(p, raws + ([WILDCARD] + rest), domain, keys)
  {
    hide Conforms, Walk, FieldsLeadTo, Decodable, StructuralAt, StarsAgree, ObjectAt;
    var path := raws + ([WILDCARD] + rest);
    forall v, y | Conforms(p.node, v, domain, p.limit) && Selects(v, path, y, keys)
      ensures Fits(StructuralAt(p, path, domain).value, y, domain)
    {
      var f, u := SelectedThrough(p, raws, rest, v, y, domain, keys);
      LeadsTo(ObjectAt(p, raws, domain).value, rest, StructuralAt(p, path, domain).value, f, u, y, domain, keys);
    }
  }

  lemma LeadsTo(at: Place, rest: seq<string>, target: Place, f: string, u: Json, y: Json, domain: Domain, keys: KeyOrder)
    requires FieldsLeadTo(at, rest, target, domain, keys)
    requires f in at.node.fields && Conforms(at.node.fields[f], u, domain, at.limit)
    requires Selects(u, rest, y, keys)
    ensures Fits(target, y, domain)
  {
  }

  /** What a walk selects through the wildcard, the rest of the path selects from a member of a conforming object. */
  lemma SelectedThrough(p: Place, raws: seq<string>, rest: seq<string>, v: Json, y: Json, domain: Domain, keys: KeyOrder)
    returns (f: string, u: Json)
    requires p.limit <= |domain| && ObjectAt(p, raws, domain).Some? && StarsAgree(p, raws, domain)
    requires Decodable(raws + ([WILDCARD] + rest)) && Conforms(p.node, v, domain, p.limit)
    requires Selects(v, raws + ([WILDCARD] + rest), y, keys)
    ensures var at := ObjectAt(p, raws, domain).value;
      f in at.node.fields && Conforms(at.node.fields[f], u, domain, at.limit)
    ensures Selects(u, rest, y, keys)
  {
    hide StructuralAt, StarsAgree, ObjectAt, Conforms, SelectAll, Decodable, Walk;
    var at := ObjectAt(p, raws, domain).value;
    WalkSplits([v], raws, [WILDCARD] + rest, keys);
    var frontier := Walk([v], raws, keys).value;
    SelectedConform(p, raws, v, domain, keys);
    StarWalk(frontier, rest, keys);
    var selected := SelectAll(frontier, WILDCARD, keys, |frontier|).value;
    TailDecodes(raws, rest);
    WalkEach(selected, rest, keys);
    var i :| 0 <= i < |selected| && y in Walk([selected[i]], rest, keys).value;
    u := selected[i];
    f := SelectedMember(at, frontier, u, domain, keys, |frontier|);
  }

  lemma TailDecodes(raws: seq<string>, rest: seq<string>)
    requires Decodable(raws + ([WILDCARD] + rest))
    ensures Decodable(rest)
  {
    hide Decode;
    var path := raws + ([WILDCARD] + rest);
    assert forall i :: 0 <= i < |rest| ==> rest[i] == path[|raws| + 1 + i];
  }

  lemma StarWalk(frontier: seq<Json>, rest: seq<string>, keys: KeyOrder)
    ensures var selected := SelectAll(frontier, WILDCARD, keys, |frontier|);
      Walk(frontier, [WILDCARD] + rest, keys) == if selected.Failure? then selected else Walk(selected.value, rest, keys)
  {
    StarPath();
    hide SelectAll, Decode;
    assert ([WILDCARD] + rest)[1..] == rest;
  }

  /** The values that the path up to the wildcard selects conform to the object it ends at. */
  lemma SelectedConform(p: Place, raws: seq<string>, v: Json, domain: Domain, keys: KeyOrder)
    requires p.limit <= |domain| && ObjectAt(p, raws, domain).Some? && StarsAgree(p, raws, domain)
    requires Conforms(p.node, v, domain, p.limit) && Walk([v], raws, keys).Success?
    ensures AllConform(ObjectAt(p, raws, domain).value, Walk([v], raws, keys).value, domain)
  {
    hide StructuralAt, StarsAgree, Walk, Unwrap, Conforms;
    WalkSound(p, raws, [v], domain, keys);
    AllUnwrap(StructuralAt(p, raws, domain).value, Walk([v], raws, keys).value, domain);
  }

  /** A member that a wildcard selects from conforming objects conforms to its declared field. */
  lemma {:induction false} SelectedMember(at: Place, frontier: seq<Json>, u: Json, domain: Domain, keys: KeyOrder, k: nat)
    returns (f: string)
    requires k <= |frontier| && at.limit <= |domain| && at.node.ObjectNode? && AllConform(at, frontier, domain)
    requires SelectAll(frontier, WILDCARD, keys, k).Success? && u in SelectAll(frontier, WILDCARD, keys, k).value
    ensures f in at.node.fields && Conforms(at.node.fields[f], u, domain, at.limit)
  {
    var before := SelectAll(frontier, WILDCARD, keys, k - 1).value;
    assert Conforms(at.node, frontier[k - 1], domain, at.limit);
    hide Members;
    if u in before {
      f := SelectedMember(at, frontier, u, domain, keys, k - 1);
    } else {
      f := MemberIs(frontier[k - 1], u, keys);
    }
  }

  /** What the fields may hold, put into the object that the path reaches, is walked on from there. */
  lemma Misfit(p: Place, raws: seq<string>, rest: seq<string>, v: Json, w: Json, domain: Domain, keys: KeyOrder)
    requires p.limit <= |domain| && Listed(keys) && ObjectAt(p, raws, domain).Some?
    requires Conforms(p.node, v, domain, p.limit) && Reached(v, raws, w)
    requires var path := raws + ([WILDCARD] + rest);
      && Decodable(path) && StructuralAt(p, path, domain).Some? && Walk([v], path, keys).Success?
      && !FieldsLeadTo(ObjectAt(p, raws, domain).value, rest, StructuralAt(p, path, domain).value, domain, keys)
    ensures !AlwaysFits(p, raws + ([WILDCARD] + rest), domain, keys)
  {
    hide StructuralAt, StarsAgree, ObjectAt, Reached, Walk, Conforms, Unwrap, Listed, Decodable;
    var at, tail := ObjectAt(p, raws, domain).value, [WILDCARD] + rest;
    var target := StructuralAt(p, raws + tail, domain).value;
    ReachedConforms(p, raws, v, w, domain);
    var f, u, y :| f in at.node.fields && Conforms(at.node.fields[f], u, domain, at.limit)
      && Selects(u, rest, y, keys) && !Fits(target, y, domain);
    var other := OtherMember(p, raws, w, f, u, domain);
    ReachedWalks(v, raws, tail, w, keys);
    MemberWalks(w, f, u, raws, rest, keys);
    var after := Plug(p, raws, tail, v, w, other, domain, keys);
  }

  /** The reached object with one member replaced still fits the place the path ends at. */
  lemma OtherMember(p: Place, raws: seq<string>, w: Json, f: string, u: Json, domain: Domain) returns (other: Json)
    requires p.limit <= |domain| && ObjectAt(p, raws, domain).Some?
    requires Fits(StructuralAt(p, raws, domain).value, w, domain)
    requires var at := ObjectAt(p, raws, domain).value;
      f in at.node.fields && Conforms(at.node.fields[f], u, domain, at.limit)
    ensures w.Obj? && other == Obj(w.fields[f := u]) && Fits(StructuralAt(p, raws, domain).value, other, domain)
  {
    hide StructuralAt;
    var at, end := ObjectAt(p, raws, domain).value, StructuralAt(p, raws, domain).value;
    UnwrapConforms(end.node, w, domain, end.limit);
    WithMember(at, w, f, u, domain);
    other := Obj(w.fields[f := u]);
    UnwrapBack(end.node, w, other, domain, end.limit);
  }

  /** Through the wildcard, the object with the new member is walked on into that member. */
  lemma MemberWalks(w: Json, f: string, u: Json, raws: seq<string>, rest: seq<string>, keys: KeyOrder)
    requires w.Obj? && Listed(keys) && Decodable(raws + ([WILDCARD] + rest))
    requires Walk([w], [WILDCARD] + rest, keys).Success? && Walk([u], rest, keys).Success?
    ensures var r := Walk([Obj(w.fields[f := u])], [WILDCARD] + rest, keys);
      r.Success? && forall y :: y in Walk([u], rest, keys).value ==> y in r.value
  {
    var tail := [WILDCARD] + rest;
    StarPath();
    assert tail[0] == WILDCARD && tail[1..] == rest;
    StarDecodes(raws, rest);
    SwapAnyMember(w, f, u, keys);
    hide Decode, Walk, Swapped, Decodable, Listed;
    SwappedWalks(w, Obj(w.fields[f := u]), tail, u, keys);
  }

  lemma StarDecodes(raws: seq<string>, rest: seq<string>)
    requires Decodable(raws + ([WILDCARD] + rest))
    ensures Decodable([WILDCARD] + rest)
  {
    hide Decode;
    var path, tail := raws + ([WILDCARD] + rest), [WILDCARD] + rest;
    assert forall i :: 0 <= i < |tail| ==> tail[i] == path[|raws| + i];
  }
}
