/**
  What a pointer selects, segment by segment, said of its text: escaped field
  names, decimal indices and the wildcard (sections 3 and 4 of RFC 6901).
 */
module PointerLaws {
  import opened Wrappers
  import opened Text
  import opened Json
  import opened ContractSchema
  import opened ContractStars

  // ---------- numerals ----------

  lemma {:induction false} DigitsValueIsSpelled(s: string, n: nat)
    ensures Spells(s, n) ==> CanonicalIndex(s) && DigitsValue(s) == n
    ensures CanonicalIndex(s) && DigitsValue(s) == n ==> Spells(s, n)
    decreases |s|
  {
    if |s| == 1 {
      assert s == [s[0]] && s[..0] == "";
      SpellsDigit(s[0], n);
      assert DigitsValue("") == 0;
    } else if |s| > 1 {
      var front, last := s[..|s| - 1], s[|s| - 1];
      assert s == front + [last];
      SpellsStep(front, last, n);
      DigitsValueIsSpelled(front, n / 10);
      hide Spells, DigitsValue;
      FrontIsCanonical(s);
      DigitsValueStep(front, last);
      FrontHasValue(front);
    }
  }

  lemma DigitsValueStep(front: string, last: char)
    ensures DigitsValue(front + [last]) == 10 * DigitsValue(front) + (if IsDigit(last) then last as nat - '0' as nat else 0)
  {
    assert (front + [last])[..|front|] == front;
  }

  lemma FrontIsCanonical(s: string)
    requires |s| > 1
    ensures CanonicalIndex(s) <==> CanonicalIndex(s[..|s| - 1]) && s[..|s| - 1] != "0" && IsDigit(s[|s| - 1])
  {
    var front, last := s[..|s| - 1], s[|s| - 1];
    assert forall i :: 1 <= i < |front| ==> front[i] == s[i];
    assert front[0] == s[0];
    if CanonicalIndex(s) {
      assert front != "0" by {
        assert front[0] != '0';
      }
    }
  }

  /** A canonical index other than zero has a positive value. */
  lemma {:induction false} FrontHasValue(s: string)
    ensures CanonicalIndex(s) && s != "0" ==> DigitsValue(s) > 0
    ensures DigitsValue("0") == 0
  {
    assert "0"[..0] == "" && DigitsValue("") == 0;
    if |s| == 1 {
      assert s[..0] == "";
    } else if |s| > 1 {
      FrontIsCanonical(s);
      FrontHasValue(s[..|s| - 1]);
    }
  }

  /** A segment that spells `n` is the index `n`, as far as an index has 64 bits; every canonical index spells its value. */
  lemma IndexIsNumeral(segment: string, n: nat)
    ensures Spells(segment, n) ==> CanonicalIndex(segment) && ParseIndex(segment) == if n <= U64_MAX then Some(n) else None
    ensures CanonicalIndex(segment) && ParseIndex(segment) == Some(n) ==> Spells(segment, n)
    ensures CanonicalIndex(segment) ==> exists value: nat :: Spells(segment, value)
  {
    DigitsValueIsSpelled(segment, n);
    if CanonicalIndex(segment) {
      CanonicalIndexParses(segment);
      DigitsValueIsSpelled(segment, DigitsValue(segment));
      assert segment[0] != '+';
    }
  }

  // ---------- escaping ----------

  /** The text of a field name inside a pointer. */
  function Escape(field: string): string {
    if field == "" then ""
    else (if field[0] == '~' then "~0" else if field[0] == '/' then "~1" else [field[0]]) + Escape(field[1..])
  }

  lemma {:induction false} EscapeDecodes(field: string)
    ensures Decode(Escape(field)) == Some(field) && '/' !in Escape(field)
  {
    if field != "" {
      EscapeDecodes(field[1..]);
      var rest := Escape(field[1..]);
      var text := Escape(field);
      assert field == [field[0]] + field[1..];
      if field[0] == '~' || field[0] == '/' {
        assert text[2..] == rest;
      } else {
        assert text[1..] == rest;
      }
    }
  }

  // ---------- paths ----------

  lemma {:induction false} SplitPlain(raw: string)
    requires '/' !in raw
    ensures Split(raw) == [raw]
  {
    if raw != "" {
      SplitPlain(raw[1..]);
      assert raw == [raw[0]] + raw[1..];
    }
  }

  lemma {:induction false} SplitJoined(a: string, raw: string)
    requires '/' !in raw
    ensures Split(a + "/" + raw) == Split(a) + [raw]
  {
    var text := a + "/" + raw;
    if a == "" {
      SplitPlain(raw);
      assert text[0] == '/' && text[1..] == raw;
    } else {
      SplitJoined(a[1..], raw);
      assert text[0] == a[0] && text[1..] == a[1..] + "/" + raw;
    }
  }

  /** One more segment on a pointer's text is one more raw segment. */
  lemma PathExtends(path: string, raw: string)
    requires (path == "" || path[0] == '/') && '/' !in raw
    ensures RawSegments(path + "/" + raw) == RawSegments(path) + [raw]
  {
    var text := path + "/" + raw;
    if path == "" {
      SplitPlain(raw);
      assert text[1..] == raw;
    } else {
      SplitJoined(path[1..], raw);
      assert text[1..] == path[1..] + "/" + raw;
    }
  }

  // ---------- steps ----------

  /** The pointer selects exactly these values, in this order. */
  predicate Finds(root: Json, path: string, values: seq<Json>, keys: KeyOrder) {
    Walk([root], RawSegments(path), keys) == Success(values)
  }

  /** One more segment below a single value is one selection. */
  lemma StepFrom(root: Json, path: string, v: Json, raw: string, segment: string, keys: KeyOrder)
    requires (path == "" || path[0] == '/') && '/' !in raw && Decode(raw) == Some(segment)
    requires Finds(root, path, [v], keys)
    ensures Walk([root], RawSegments(path + "/" + raw), keys) == Select(v, segment, keys)
  {
    hide Decode, Split, Select;
    PathExtends(path, raw);
    WalkSplits([root], RawSegments(path), [raw], keys);
    WalkStep(v, [raw], keys);
    assert [raw][1..] == [];
  }

  /** A pointer that goes on with an index `n` selects element `n`, and nothing else. */
  lemma IndexFinds(root: Json, path: string, items: seq<Json>, segment: string, n: nat, keys: KeyOrder)
    requires path == "" || path[0] == '/'
    requires Finds(root, path, [Arr(items)], keys) && Spells(segment, n) && n <= U64_MAX
    ensures Walk([root], RawSegments(path + "/" + segment), keys)
         == if n < |items| then Success([items[n]]) else Failure(MissingIndex)
  {
    IndexIsNumeral(segment, n);
    DigitsDecode(segment);
    hide Decode, ParseIndex, Spells;
    StepFrom(root, path, Arr(items), segment, segment, keys);
    assert segment != WILDCARD by {
      assert CanonicalIndex(segment);
    }
  }

  lemma {:induction false} PlainDecodes(raw: string)
    requires '~' !in raw
    ensures Decode(raw) == Some(raw)
  {
    if raw != "" {
      PlainDecodes(raw[1..]);
      assert raw == [raw[0]] + raw[1..];
    }
  }

  lemma DigitsDecode(segment: string)
    requires CanonicalIndex(segment)
    ensures Decode(segment) == Some(segment) && '/' !in segment
  {
    assert forall i :: 0 <= i < |segment| ==> IsDigit(segment[i]);
    PlainDecodes(segment);
  }

  /** A pointer that goes on with a field's escaped name selects that field. */
  lemma FieldFinds(root: Json, path: string, fields: map<string, Json>, field: string, keys: KeyOrder)
    requires path == "" || path[0] == '/'
    requires Finds(root, path, [Obj(fields)], keys) && field != WILDCARD
    ensures Walk([root], RawSegments(path + "/" + Escape(field)), keys)
         == if field in fields then Success([fields[field]]) else Failure(MissingField(field))
  {
    EscapeDecodes(field);
    StepFrom(root, path, Obj(fields), Escape(field), field, keys);
  }

  /** A wildcard selects every element in order, or every field of an object once, in the order its map is iterated. */
  lemma WildcardFinds(root: Json, path: string, v: Json, keys: KeyOrder)
    requires path == "" || path[0] == '/'
    requires Finds(root, path, [v], keys)
    ensures v.Arr? ==> Finds(root, path + "/*", v.items, keys)
    ensures v.Obj? && (forall f :: f in keys(v.fields.Keys) ==> f in v.fields) ==>
      var order := keys(v.fields.Keys);
      Finds(root, path + "/*",
        seq(|order|, i requires 0 <= i < |order| => if order[i] in v.fields then v.fields[order[i]] else Null), keys)
    ensures !v.Arr? && !v.Obj? ==> Walk([root], RawSegments(path + "/*"), keys) == Failure(NotACollection)
  {
    assert "/*" == "/" + "*" && path + "/*" == path + "/" + "*";
    PlainDecodes("*");
    StepFrom(root, path, v, "*", "*", keys);
    if v.Obj? && forall f :: f in keys(v.fields.Keys) ==> f in v.fields {
      MembersInOrder(v.fields, keys(v.fields.Keys));
    }
  }

  lemma {:induction false} MembersInOrder(fields: map<string, Json>, order: seq<string>)
    requires forall f :: f in order ==> f in fields
    ensures MembersOf(fields, order)
         == seq(|order|, i requires 0 <= i < |order| => if order[i] in fields then fields[order[i]] else Null)
  {
    if order != [] {
      MembersInOrder(fields, order[1..]);
    }
  }

  // ---------- what the schema accepts ----------

  /** What the leaves of a schema accept, and an optional node. */
  lemma LeavesConform(v: Json, values: seq<Json>, node: ContractNode, domain: Domain, limit: nat)
    requires limit <= |domain|
    ensures Conforms(StringNode, v, domain, limit) <==> exists s :: v == Str(s)
    ensures Conforms(NumberNode, v, domain, limit) <==> exists n :: v == Num(n)
    ensures Conforms(BooleanNode, v, domain, limit) <==> v == Bool(true) || v == Bool(false)
    ensures Conforms(LiteralNode(values), v, domain, limit) <==> exists i :: 0 <= i < |values| && values[i] == v
    ensures Conforms(OptionalNode(node), v, domain, limit) <==> v != Null && Conforms(node, v, domain, limit)
  {
    if v.Str? {
      assert v == Str(v.s);
    }
    if v.Num? {
      assert v == Num(v.n);
    }
  }

  /** An array node accepts exactly the arrays of what its item accepts. */
  lemma ArrayConforms(node: ContractNode, v: Json, domain: Domain, limit: nat)
    requires limit <= |domain|
    ensures Conforms(ArrayNode(node), v, domain, limit)
      <==> exists items :: v == Arr(items) && forall x :: x in items ==> Conforms(node, x, domain, limit)
  {
    if v.Arr? {
      assert v == Arr(v.items);
      if forall x :: x in v.items ==> Conforms(node, x, domain, limit) {
        forall i | 0 <= i < |v.items| ensures Conforms(node, v.items[i], domain, limit) {
          assert v.items[i] in v.items;
        }
      }
    }
  }

  /** A tuple node accepts exactly the arrays that fit it position by position. */
  lemma TupleConforms(nodes: seq<ContractNode>, v: Json, domain: Domain, limit: nat)
    requires limit <= |domain|
    ensures Conforms(TupleNode(nodes), v, domain, limit)
      <==> v.Arr? && |v.items| == |nodes| && forall i :: 0 <= i < |nodes| ==> Conforms(nodes[i], v.items[i], domain, limit)
  {
  }

  /** An object node accepts exactly the objects of declared fields in which only optional ones are absent. */
  lemma ObjectConforms(declared: map<string, ContractNode>, v: Json, domain: Domain, limit: nat)
    requires limit <= |domain|
    ensures Conforms(ObjectNode(declared), v, domain, limit)
      <==> && v.Obj?
           && (forall f :: f in v.fields ==> f in declared && Conforms(declared[f], v.fields[f], domain, limit))
           && (forall f :: f in declared && f !in v.fields ==> declared[f].OptionalNode?)
  {
  }

  predicate FirstOfKind(domain: Domain, kind: string, limit: nat, i: nat)
    requires limit <= |domain|
  {
    i < limit && domain[i].0 == kind && forall j :: 0 <= j < i ==> domain[j].0 != kind
  }

  /** A reference stands for the first entry of its kind, of the one dependency there is. */
  lemma ReferenceConforms(dependency: string, kind: string, v: Json, domain: Domain, limit: nat)
    requires limit <= |domain|
    ensures Conforms(ExternalRef(dependency, kind), v, domain, limit)
      <==> dependency == "aira-synapse-domain-contract@1"
           && exists i: nat :: FirstOfKind(domain, kind, limit, i) && Conforms(domain[i].1, v, domain, i)
  {
    FirstIsResolved(domain, kind, limit);
  }

  lemma FirstIsResolved(domain: Domain, kind: string, limit: nat)
    requires limit <= |domain|
    ensures forall i: nat :: FirstOfKind(domain, kind, limit, i) <==> i < limit && i == Resolve(domain, kind, limit)
  {
    var at := Resolve(domain, kind, limit);
    forall i: nat | FirstOfKind(domain, kind, limit, i) ensures i == at {
    }
  }

  /** What a node stands for: through optionals, and through references to the first entry of their kind. */
  lemma UnwrapMeans(node: ContractNode, i: nat, domain: Domain, limit: nat)
    requires limit <= |domain|
    ensures node.OptionalNode? ==> Unwrap(node, domain, limit) == Unwrap(node.value, domain, limit)
    ensures node.ExternalRef? && FirstOfKind(domain, node.referenceKind, limit, i) ==>
      Unwrap(node, domain, limit) == Unwrap(domain[i].1, domain, i)
    ensures node.ExternalRef? && (forall j :: 0 <= j < limit ==> domain[j].0 != node.referenceKind) ==>
      Unwrap(node, domain, limit).None?
    ensures !node.OptionalNode? && !node.ExternalRef? ==> Unwrap(node, domain, limit) == Some(Place(node, limit))
  {
    if node.ExternalRef? {
      FirstIsResolved(domain, node.referenceKind, limit);
    }
  }

  /** The places the static check goes to below a node, and the segments it refuses. */
  lemma ChildMeans(p: Place, segment: string)
    ensures p.node.ArrayNode? ==>
      ChildOf(p, segment)
      == if segment == "*" || (exists n: nat :: Spells(segment, n)) then Some(Place(p.node.item, p.limit)) else None
    ensures p.node.ObjectNode? ==>
      ChildOf(p, segment) == if segment in p.node.fields then Some(Place(p.node.fields[segment], p.limit)) else None
    ensures !p.node.ArrayNode? && !p.node.TupleNode? && !p.node.ObjectNode? ==> ChildOf(p, segment).None?
  {
    hide Spells, CanonicalIndex, ParseIndex;
    NumeralsAreIndices(segment);
  }

  /** Below a tuple: an index inside it, or a wildcard when all its nodes are the same. */
  lemma TupleChildMeans(nodes: seq<ContractNode>, limit: nat, segment: string, n: nat)
    requires n <= U64_MAX
    ensures var child := ChildOf(Place(TupleNode(nodes), limit), segment);
      && (Spells(segment, n) ==> child == if n < |nodes| then Some(Place(nodes[n], limit)) else None)
      && (segment == "*" ==>
            child == if nodes != [] && (forall i :: 0 <= i < |nodes| ==> nodes[i] == nodes[0])
                     then Some(Place(nodes[0], limit)) else None)
      && (child.Some? ==> segment == "*" || exists m: nat :: Spells(segment, m))
  {
    hide Spells, CanonicalIndex, ParseIndex;
    NumeralsAreIndices(segment);
  }

  lemma NumeralsAreIndices(segment: string)
    ensures CanonicalIndex(segment) <==> exists n: nat :: Spells(segment, n)
    ensures forall n: nat :: Spells(segment, n) && n <= U64_MAX ==> ParseIndex(segment) == Some(n)
    ensures CanonicalIndex(segment) ==> segment != "*"
  {
    forall n: nat | Spells(segment, n) ensures CanonicalIndex(segment) && (n <= U64_MAX ==> ParseIndex(segment) == Some(n)) {
      IndexIsNumeral(segment, n);
    }
    IndexIsNumeral(segment, 0);
  }

  /** One more segment is accepted exactly when the node reached so far has such a child. */
  lemma AcceptedExtends(root: ContractNode, path: string, raw: string, segment: string, domain: Domain)
    requires (path == "" || path[0] == '/') && '/' !in raw && Decode(raw) == Some(segment)
    requires StructuralContractAt(root, path, domain).Some?
    ensures var p := StructuralContractAt(root, path, domain).value;
      && p.limit <= |domain|
      && StructuralContractAt(root, path + "/" + raw, domain)
         == var at := Unwrap(p.node, domain, p.limit);
            if at.None? || ChildOf(at.value, segment).None? then None else ChildOf(at.value, segment)
  {
    hide Decode, Split, Unwrap, ChildOf;
    PathExtends(path, raw);
    StructuralSplits(Place(root, |domain|), RawSegments(path), [raw], domain);
    assert [raw][1..] == [];
    var text := path + "/" + raw;
    assert text[0] == '/';
    var p := StructuralContractAt(root, path, domain).value;
    ChildLimits(p, segment, domain);
    forall i | 0 <= i < |RawSegments(text)| ensures Decode(RawSegments(text)[i]).Some? {
      if i < |RawSegments(path)| {
        assert RawSegments(text)[i] == RawSegments(path)[i];
      }
    }
  }

  lemma ChildLimits(p: Place, segment: string, domain: Domain)
    requires p.limit <= |domain|
    ensures var at := Unwrap(p.node, domain, p.limit);
      at.Some? ==>
        at.value.limit <= |domain| && (ChildOf(at.value, segment).Some? ==> ChildOf(at.value, segment).value.limit <= |domain|)
  {
  }
}
