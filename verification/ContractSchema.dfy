/**
  The schema language, its validator, and the two readings of a JSON Pointer: the
  static one over schemas and the dynamic one over values, with the theorem that
  relates them. Pointers follow RFC 6901 (section 4), extended with `*`.
 */
module ContractSchema {
  import opened Wrappers
  import opened Json

  datatype ContractNode =
    | StringNode
    | NumberNode
    | BooleanNode
    | LiteralNode(values: seq<Json>)
    | ArrayNode(item: ContractNode)
    | TupleNode(items: seq<ContractNode>)
    | OptionalNode(value: ContractNode)
    | ObjectNode(fields: map<string, ContractNode>)
    | ExternalRef(dependency: string, referenceKind: string)

  /**
    The delegated contracts, ranked by position: a reference inside entry `i` is
    resolved among the entries before it, so resolution ends.
   */
  type Domain = seq<(string, ContractNode)>

  const DOMAIN_DEPENDENCY: string := "aira-synapse-domain-contract@1"

  /** The first entry of that kind among the first `limit`, or `limit` itself. */
  function Resolve(domain: Domain, kind: string, limit: nat): (i: nat)
    requires limit <= |domain|
    ensures i <= limit
    ensures i < limit ==> domain[i].0 == kind
    ensures forall j :: 0 <= j < i ==> domain[j].0 != kind
  {
    if limit == 0 then 0
    else
      var earlier := Resolve(domain, kind, limit - 1);
      if earlier < limit - 1 then earlier else if domain[limit - 1].0 == kind then limit - 1 else limit
  }

  // ---------- validation ----------

  /** `validate_schema`, without the wording of its errors. */
  predicate Conforms(node: ContractNode, value: Json, domain: Domain, limit: nat)
    requires limit <= |domain|
    decreases limit, node
  {
    match node
    case StringNode => value.Str?
    case NumberNode => value.Num?
    case BooleanNode => value.Bool?
    case LiteralNode(values) => value in values
    case ArrayNode(item) => value.Arr? && forall i :: 0 <= i < |value.items| ==> Conforms(item, value.items[i], domain, limit)
    case TupleNode(items) =>
      value.Arr? && |value.items| == |items|
      && forall i :: 0 <= i < |items| ==> Conforms(items[i], value.items[i], domain, limit)
    case OptionalNode(item) => !value.Null? && Conforms(item, value, domain, limit)
    case ObjectNode(fields) =>
      value.Obj? && value.fields.Keys <= fields.Keys
      && (forall f :: f in fields && f in value.fields ==> Conforms(fields[f], value.fields[f], domain, limit))
      && (forall f :: f in fields && f !in value.fields ==> fields[f].OptionalNode?)
    case ExternalRef(dependency, kind) =>
      var i := Resolve(domain, kind, limit);
      dependency == DOMAIN_DEPENDENCY && i < limit && Conforms(domain[i].1, value, domain, i)
  }

  /** A schema node together with the part of the domain it may refer to. */
  datatype Place = Place(node: ContractNode, limit: nat)

  ghost predicate Fits(p: Place, value: Json, domain: Domain) {
    p.limit <= |domain| && Conforms(p.node, value, domain, p.limit)
  }

  // ---------- static traversal ----------

  /** `unwrap_structural_node`: through optionals and references. */
  function Unwrap(node: ContractNode, domain: Domain, limit: nat): (r: Option<Place>)
    requires limit <= |domain|
    ensures r.Some? ==> r.value.limit <= limit && !r.value.node.OptionalNode? && !r.value.node.ExternalRef?
    decreases limit, node
  {
    match node
    case OptionalNode(value) => Unwrap(value, domain, limit)
    case ExternalRef(_, kind) =>
      var i := Resolve(domain, kind, limit);
      if i < limit then Unwrap(domain[i].1, domain, i) else None
    case _ => Some(Place(node, limit))
  }

  predicate IsDigit(c: char) {
    '0' <= c <= '9'
  }

  /** `is_canonical_array_index`. */
  predicate CanonicalIndex(segment: string) {
    segment == "0"
    || (segment != "" && '1' <= segment[0] <= '9' && forall i :: 1 <= i < |segment| ==> IsDigit(segment[i]))
  }

  function DigitsValue(s: string): nat {
    if s == "" then 0 else 10 * DigitsValue(s[..|s| - 1]) + (if IsDigit(s[|s| - 1]) then s[|s| - 1] as nat - '0' as nat else 0)
  }

  /** `str::parse::<usize>`: an optional plus sign, digits, and no more than 64 bits. */
  function ParseIndex(segment: string): Option<nat> {
    var digits := if segment != "" && segment[0] == '+' then segment[1..] else segment;
    if digits != "" && (forall i :: 0 <= i < |digits| ==> IsDigit(digits[i])) && DigitsValue(digits) <= U64_MAX
    then Some(DigitsValue(digits)) else None
  }

  const WILDCARD: string := "*"

  /** `structural_child` below an unwrapped node. */
  function ChildOf(p: Place, segment: string): Option<Place> {
    match p.node
    case ArrayNode(item) =>
      if segment != WILDCARD && !CanonicalIndex(segment) then None else Some(Place(item, p.limit))
    case TupleNode(items) =>
      if segment == WILDCARD then
        if items == [] || exists i :: 0 <= i < |items| && items[i] != items[0] then None else Some(Place(items[0], p.limit))
      else if !CanonicalIndex(segment) then None
      else
        var index := ParseIndex(segment);
        if index.Some? && index.value < |items| then Some(Place(items[index.value], p.limit)) else None
    case ObjectNode(fields) => if segment in fields then Some(Place(fields[segment], p.limit)) else None
    case _ => None
  }

  function StructuralChild(p: Place, segment: string, domain: Domain): Option<Place>
    requires p.limit <= |domain|
  {
    var at := Unwrap(p.node, domain, p.limit);
    if at.None? then None else ChildOf(at.value, segment)
  }

  // ---------- pointers ----------

  function Split(s: string): (r: seq<string>)
    ensures r != []
  {
    if s == "" then [""]
    else
      var rest := Split(s[1..]);
      if s[0] == '/' then [""] + rest else [[s[0]] + rest[0]] + rest[1..]
  }

  /** `json_pointer_segment`: `~0` is a tilde and `~1` a slash. */
  function Decode(raw: string): Option<string> {
    if raw == "" then Some("")
    else if raw[0] != '~' then
      var rest := Decode(raw[1..]);
      if rest.Some? then Some([raw[0]] + rest.value) else None
    else if |raw| < 2 || (raw[1] != '0' && raw[1] != '1') then None
    else
      var rest := Decode(raw[2..]);
      if rest.Some? then Some([if raw[1] == '0' then '~' else '/'] + rest.value) else None
  }

  /** The raw segments of a pointer; the first character is skipped, as the source slices it off. */
  function RawSegments(path: string): seq<string> {
    if path == "" then [] else Split(path[1..])
  }

  /** `structural_contract_at` over the remaining raw segments. */
  function StructuralAt(p: Place, raws: seq<string>, domain: Domain): (r: Option<Place>)
    requires p.limit <= |domain|
    ensures r.Some? ==> r.value.limit <= |domain|
    decreases |raws|
  {
    if raws == [] then Some(p)
    else
      var segment := Decode(raws[0]);
      if segment.None? then None
      else
        var child := StructuralChild(p, segment.value, domain);
        if child.None? || child.value.limit > |domain| then None else StructuralAt(child.value, raws[1..], domain)
  }

  predicate ValidPointer(path: string) {
    path == "" || (path[0] == '/' && forall i :: 0 <= i < |RawSegments(path)| ==> Decode(RawSegments(path)[i]).Some?)
  }

  function StructuralContractAt(root: ContractNode, path: string, domain: Domain): Option<Place> {
    if ValidPointer(path) then StructuralAt(Place(root, |domain|), RawSegments(path), domain) else None
  }

  // ---------- dynamic traversal ----------

  datatype PointerError =
    | BadEscape
    | MissingField(field: string)
    | BadIndex
    | MissingIndex
    | NotACollection
    | Scalar
    | NothingSelected

  /** The members of an object in the order its map is iterated. */
  type KeyOrder = set<string> -> seq<string>

  function Members(v: Json, keys: KeyOrder): seq<Json>
    requires v.Obj?
  {
    MembersOf(v.fields, keys(v.fields.Keys))
  }

  function MembersOf(fields: map<string, Json>, order: seq<string>): seq<Json> {
    if order == [] then []
    else (if order[0] in fields then [fields[order[0]]] else []) + MembersOf(fields, order[1..])
  }

  /** What one segment selects below one value. */
  function Select(v: Json, segment: string, keys: KeyOrder): Result<seq<Json>, PointerError> {
    if segment == WILDCARD then
      match v
      case Arr(items) => Success(items)
      case Obj(_) => Success(Members(v, keys))
      case _ => Failure(NotACollection)
    else
      match v
      case Obj(fields) => if segment in fields then Success([fields[segment]]) else Failure(MissingField(segment))
      case Arr(items) =>
        var index := ParseIndex(segment);
        if index.None? then Failure(BadIndex)
        else if index.value >= |items| then Failure(MissingIndex)
        else Success([items[index.value]])
      case _ => Failure(Scalar)
  }

  /** One segment below every value of the frontier, first error wins. */
  function SelectAll(values: seq<Json>, segment: string, keys: KeyOrder, k: nat): Result<seq<Json>, PointerError>
    requires k <= |values|
  {
    if k == 0 then Success([])
    else
      var before := SelectAll(values, segment, keys, k - 1);
      if before.Failure? then before
      else
        var more := Select(values[k - 1], segment, keys);
        if more.Failure? then more else Success(before.value + more.value)
  }

  function Walk(values: seq<Json>, raws: seq<string>, keys: KeyOrder): Result<seq<Json>, PointerError>
    decreases |raws|
  {
    if raws == [] then Success(values)
    else
      var segment := Decode(raws[0]);
      if segment.None? then Failure(BadEscape)
      else
        var next := SelectAll(values, segment.value, keys, |values|);
        if next.Failure? then next else Walk(next.value, raws[1..], keys)
  }

  lemma {:induction false} NonemptySelection(values: seq<Json>, segment: string, keys: KeyOrder, k: nat)
    requires k <= |values| && segment != WILDCARD && SelectAll(values, segment, keys, k).Success?
    ensures |SelectAll(values, segment, keys, k).value| == k
  {
    if k > 0 {
      NonemptySelection(values, segment, keys, k - 1);
    }
  }

  /** `pointer_values`: the frontier loop. Its "selected no values" error is unreachable. */
  method PointerValues(root: Json, path: string, keys: KeyOrder) returns (r: Result<seq<Json>, PointerError>)
    ensures r == Walk([root], RawSegments(path), keys)
  {
    if path == "" {
      return Success([root]);
    }
    var raws, current := Split(path[1..]), [root];
    for i := 0 to |raws|
      invariant Walk([root], raws, keys) == Walk(current, raws[i..], keys)
    {
      var segment := Decode(raws[i]);
      if segment.None? {
        return Failure(BadEscape);
      }
      var next := SelectFrontier(current, segment.value, keys);
      if next.Failure? {
        return next;
      }
      if next.value == [] && segment.value != WILDCARD && current != [] {
        NonemptySelection(current, segment.value, keys, |current|);
        assert false;
      }
      assert raws[i..][1..] == raws[i + 1..];
      current := next.value;
    }
    return Success(current);
  }

  /** One round of the frontier loop. */
  method SelectFrontier(current: seq<Json>, segment: string, keys: KeyOrder) returns (r: Result<seq<Json>, PointerError>)
    ensures r == SelectAll(current, segment, keys, |current|)
  {
    hide Members, ParseIndex;
    var next: seq<Json> := [];
    for k := 0 to |current|
      invariant SelectAll(current, segment, keys, k) == Success(next)
    {
      FrontierFails(current, segment, keys, k);
      var value := current[k];
      if segment == WILDCARD {
        if value.Arr? {
          next := next + value.items;
        } else if value.Obj? {
          next := next + Members(value, keys);
        } else {
          return Failure(NotACollection);
        }
      } else if value.Obj? {
        if segment !in value.fields {
          return Failure(MissingField(segment));
        }
        next := next + [value.fields[segment]];
      } else if value.Arr? {
        var index := ParseIndex(segment);
        if index.None? {
          return Failure(BadIndex);
        }
        if index.value >= |value.items| {
          return Failure(MissingIndex);
        }
        next := next + [value.items[index.value]];
      } else {
        return Failure(Scalar);
      }
    }
    return Success(next);
  }

  lemma FrontierFails(current: seq<Json>, segment: string, keys: KeyOrder, k: nat)
    requires k < |current| && SelectAll(current, segment, keys, k).Success?
    ensures Select(current[k], segment, keys).Failure? ==>
      SelectAll(current, segment, keys, |current|) == Failure(Select(current[k], segment, keys).error)
  {
    if Select(current[k], segment, keys).Failure? {
      FailureSticks(current, segment, keys, k + 1, |current|);
    }
  }

  lemma {:induction false} FailureSticks(current: seq<Json>, segment: string, keys: KeyOrder, i: nat, k: nat)
    requires i <= k <= |current| && SelectAll(current, segment, keys, i).Failure?
    ensures SelectAll(current, segment, keys, k) == SelectAll(current, segment, keys, i)
    decreases k
  {
    if i < k {
      FailureSticks(current, segment, keys, i, k - 1);
    }
  }

  // ---------- soundness ----------

  /** A canonical index is refused only because it does not fit 64 bits. */
  lemma CanonicalIndexParses(segment: string)
    requires CanonicalIndex(segment)
    ensures ParseIndex(segment).Some? <==> DigitsValue(segment) <= U64_MAX
  {
    forall i | 0 <= i < |segment| ensures IsDigit(segment[i]) {
    }
  }

  /** A value that conforms to a node conforms to what the node unwraps to. */
  lemma {:induction false} UnwrapConforms(node: ContractNode, value: Json, domain: Domain, limit: nat)
    requires limit <= |domain| && Conforms(node, value, domain, limit)
    ensures var at := Unwrap(node, domain, limit);
      at.Some? && at.value.limit <= |domain| && Conforms(at.value.node, value, domain, at.value.limit)
    decreases limit, node
  {
    match node
    case OptionalNode(item) => UnwrapConforms(item, value, domain, limit);
    case ExternalRef(_, kind) =>
      var i := Resolve(domain, kind, limit);
      UnwrapConforms(domain[i].1, value, domain, i);
    case _ =>
  }

  /** Whatever a declared field may hold, the field named `*` may hold as well. */
  ghost predicate FieldsFitStar(at: Place, domain: Domain) {
    && at.limit <= |domain| && at.node.ObjectNode? && WILDCARD in at.node.fields
    && forall f, v :: f in at.node.fields && Conforms(at.node.fields[f], v, domain, at.limit) ==>
         Conforms(at.node.fields[WILDCARD], v, domain, at.limit)
  }

  /**
    Where the path meets an object with `*`, the one place where the two readings
    differ, every declared field fits the field named `*`.
   */
  ghost predicate StarsAgree(p: Place, raws: seq<string>, domain: Domain)
    requires p.limit <= |domain|
    decreases |raws|
  {
    raws == []
    || (var segment, at := Decode(raws[0]), Unwrap(p.node, domain, p.limit);
        segment.Some? && at.Some?
        && (segment.value == WILDCARD && at.value.node.ObjectNode? ==> FieldsFitStar(at.value, domain))
        && var child := ChildOf(at.value, segment.value);
        (child.Some? && child.value.limit <= |domain| ==> StarsAgree(child.value, raws[1..], domain)))
  }

  /** The only errors one segment can cause below a conforming value: its optional field is absent, or its array index is. */
  predicate StepCauses(at: Place, segment: string, e: PointerError) {
    match at.node
    case ObjectNode(fields) =>
      segment != WILDCARD && segment in fields && fields[segment].OptionalNode? && e == MissingField(segment)
    case ArrayNode(_) => segment != WILDCARD && e == (if ParseIndex(segment).None? then BadIndex else MissingIndex)
    case _ => false
  }

  /** Some segment of the path causes the error. */
  predicate PathCauses(p: Place, raws: seq<string>, e: PointerError, domain: Domain)
    requires p.limit <= |domain|
    decreases |raws|
  {
    raws != []
    && (var segment, at := Decode(raws[0]), Unwrap(p.node, domain, p.limit);
        segment.Some? && at.Some?
        && (StepCauses(at.value, segment.value, e)
            || (var child := ChildOf(at.value, segment.value);
                child.Some? && child.value.limit <= |domain| && PathCauses(child.value, raws[1..], e, domain))))
  }

  /** Whether the segment cannot fail below the node: a wildcard, a tuple position or a required field. */
  predicate TotalStep(at: Place, segment: string) {
    match at.node
    case ArrayNode(_) => segment == WILDCARD
    case TupleNode(_) => true
    case ObjectNode(fields) => segment in fields && (segment == WILDCARD || !fields[segment].OptionalNode?)
    case _ => false
  }

  predicate TotalPath(p: Place, raws: seq<string>, domain: Domain)
    requires p.limit <= |domain|
    decreases |raws|
  {
    raws == []
    || (var segment, at := Decode(raws[0]), Unwrap(p.node, domain, p.limit);
        segment.Some? && at.Some? && TotalStep(at.value, segment.value)
        && var child := ChildOf(at.value, segment.value);
        (child.Some? && child.value.limit <= |domain| ==> TotalPath(child.value, raws[1..], domain)))
  }

  lemma {:induction false} MembersAreFields(fields: map<string, Json>, order: seq<string>, i: nat)
    requires i < |MembersOf(fields, order)|
    ensures exists f :: f in fields && fields[f] == MembersOf(fields, order)[i]
  {
    var first := if order[0] in fields then [fields[order[0]]] else [];
    if i >= |first| {
      MembersAreFields(fields, order[1..], i - |first|);
    } else {
      assert order[0] in fields;
    }
  }

  /** A wildcard below an object whose fields fit the field `*`. */
  lemma MembersFit(at: Place, value: Json, domain: Domain, keys: KeyOrder)
    requires at.limit <= |domain| && Conforms(at.node, value, domain, at.limit) && FieldsFitStar(at, domain)
    ensures value.Obj?
    ensures forall i :: 0 <= i < |Members(value, keys)| ==>
      Conforms(at.node.fields[WILDCARD], Members(value, keys)[i], domain, at.limit)
  {
    forall i | 0 <= i < |Members(value, keys)|
      ensures Conforms(at.node.fields[WILDCARD], Members(value, keys)[i], domain, at.limit)
    {
      MembersAreFields(value.fields, keys(value.fields.Keys), i);
      var f :| f in value.fields && value.fields[f] == Members(value, keys)[i];
      assert Conforms(at.node.fields[f], value.fields[f], domain, at.limit);
    }
  }

  /** One segment below one conforming value. */
  lemma SelectSound(at: Place, segment: string, value: Json, domain: Domain, keys: KeyOrder)
    requires at.limit <= |domain| && Conforms(at.node, value, domain, at.limit)
    requires ChildOf(at, segment).Some? && (segment == WILDCARD && at.node.ObjectNode? ==> FieldsFitStar(at, domain))
    ensures var child, r := ChildOf(at, segment).value, Select(value, segment, keys);
      && child.limit == at.limit
      && (r.Success? ==> forall i :: 0 <= i < |r.value| ==> Conforms(child.node, r.value[i], domain, child.limit))
      && (r.Success? && segment != WILDCARD ==> |r.value| == 1)
      && (r.Failure? ==> StepCauses(at, segment, r.error))
  {
    hide ParseIndex, CanonicalIndex, Members, FieldsFitStar;
    match at.node
    case TupleNode(items) =>
      if segment == WILDCARD {
        forall i | 0 <= i < |items| ensures items[i] == items[0] {
        }
      }
    case ObjectNode(fields) =>
      if segment == WILDCARD {
        MembersFit(at, value, domain, keys);
      }
    case _ =>
  }

  ghost predicate AllConform(p: Place, values: seq<Json>, domain: Domain)
    requires p.limit <= |domain|
  {
    forall i :: 0 <= i < |values| ==> Conforms(p.node, values[i], domain, p.limit)
  }

  lemma {:induction false} FrontierSound(at: Place, segment: string, values: seq<Json>, domain: Domain, keys: KeyOrder, k: nat)
    requires k <= |values| && at.limit <= |domain| && AllConform(at, values, domain)
    requires ChildOf(at, segment).Some? && (segment == WILDCARD && at.node.ObjectNode? ==> FieldsFitStar(at, domain))
    ensures var child, r := ChildOf(at, segment).value, SelectAll(values, segment, keys, k);
      && child.limit <= |domain|
      && (r.Success? ==> AllConform(child, r.value, domain))
      && (r.Success? && segment != WILDCARD ==> |r.value| == k)
      && (r.Failure? ==> StepCauses(at, segment, r.error))
  {
    hide Conforms, Select, ChildOf, StepCauses, FieldsFitStar;
    if k == 0 {
      ChildLimit(at, segment);
    } else {
      FrontierSound(at, segment, values, domain, keys, k - 1);
      SelectSound(at, segment, values[k - 1], domain, keys);
    }
  }

  lemma ChildLimit(at: Place, segment: string)
    ensures ChildOf(at, segment).Some? ==> ChildOf(at, segment).value.limit == at.limit
  {
  }

  predicate HasWildcard(raws: seq<string>) {
    exists i :: 0 <= i < |raws| && Decode(raws[i]) == Some(WILDCARD)
  }

  /**
    If every value conforms and the schema accepts the path, evaluation fails only
    with an error that a segment of the path causes: its optional field is absent,
    or its array index is. Everything selected conforms to the node the schema
    returned, and without a wildcard each value selects exactly one.
   */
  lemma {:induction false} WalkSound(p: Place, raws: seq<string>, values: seq<Json>, domain: Domain, keys: KeyOrder)
    requires p.limit <= |domain| && AllConform(p, values, domain)
    requires StructuralAt(p, raws, domain).Some? && StarsAgree(p, raws, domain)
    ensures var target, r := StructuralAt(p, raws, domain).value, Walk(values, raws, keys);
      && target.limit <= |domain|
      && (r.Success? ==> AllConform(target, r.value, domain))
      && (r.Success? && !HasWildcard(raws) ==> |r.value| == |values|)
      && (r.Failure? ==> PathCauses(p, raws, r.error, domain))
    decreases |raws|
  {
    if raws != [] {
      hide Conforms, Unwrap, ChildOf, SelectAll, StepCauses, Decode, FieldsFitStar;
      var segment, at := Decode(raws[0]).value, Unwrap(p.node, domain, p.limit).value;
      var child := ChildOf(at, segment).value;
      AllUnwrap(p, values, domain);
      FrontierSound(at, segment, values, domain, keys, |values|);
      var next := SelectAll(values, segment, keys, |values|);
      if next.Success? {
        WalkSound(child, raws[1..], next.value, domain, keys);
        if !HasWildcard(raws) {
          assert Decode(raws[0]) != Some(WILDCARD);
          assert forall i :: 0 <= i < |raws[1..]| ==> raws[1..][i] == raws[i + 1];
        }
      }
    }
  }

  lemma AllUnwrap(p: Place, values: seq<Json>, domain: Domain)
    requires p.limit <= |domain| && AllConform(p, values, domain) && Unwrap(p.node, domain, p.limit).Some?
    ensures var at := Unwrap(p.node, domain, p.limit).value; at.limit <= |domain| && AllConform(at, values, domain)
  {
    forall i | 0 <= i < |values|
      ensures var at := Unwrap(p.node, domain, p.limit).value; Conforms(at.node, values[i], domain, at.limit)
    {
      UnwrapConforms(p.node, values[i], domain, p.limit);
    }
  }

  /** The theorem for one document and one pointer. */
  lemma PointerSound(root: ContractNode, path: string, value: Json, domain: Domain, keys: KeyOrder)
    requires Conforms(root, value, domain, |domain|) && StructuralContractAt(root, path, domain).Some?
    requires StarsAgree(Place(root, |domain|), RawSegments(path), domain)
    ensures var target, r := StructuralContractAt(root, path, domain).value, Walk([value], RawSegments(path), keys);
      && (r.Success? ==> forall i :: 0 <= i < |r.value| ==> Fits(target, r.value[i], domain))
      && (r.Success? && !HasWildcard(RawSegments(path)) ==> |r.value| == 1)
      && (r.Failure? ==> PathCauses(Place(root, |domain|), RawSegments(path), r.error, domain))
      && (TotalPath(Place(root, |domain|), RawSegments(path), domain) ==> r.Success?)
  {
    var p, raws := Place(root, |domain|), RawSegments(path);
    WalkSound(p, raws, [value], domain, keys);
    forall e | PathCauses(p, raws, e, domain) ensures !TotalPath(p, raws, domain) {
      TotalCausesNothing(p, raws, e, domain);
    }
  }

  lemma {:induction false} TotalCausesNothing(p: Place, raws: seq<string>, e: PointerError, domain: Domain)
    requires p.limit <= |domain| && PathCauses(p, raws, e, domain)
    ensures !TotalPath(p, raws, domain)
    decreases |raws|
  {
    var segment, at := Decode(raws[0]).value, Unwrap(p.node, domain, p.limit).value;
    if !StepCauses(at, segment, e) {
      TotalCausesNothing(ChildOf(at, segment).value, raws[1..], e, domain);
    }
  }
}
