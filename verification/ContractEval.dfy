/**
  The refinement expressions of the contract: the declared signature of every
  opcode, the evaluator, and the reason why a request assertion cannot depend on
  the result. Errors carry the evaluator's own messages.
 */
module ContractEval {
  import opened Wrappers
  import opened Text
  import opened Json
  import opened Graph
  import opened StableSort
  import opened Ranking
  import opened ContractSchema

  // ---------- opcodes and their declared fields ----------

  datatype Opcode =
    | All | Any | ArrayAt | ArrayLength | Coalesce | Concat | CorpusEqRef | Eq | FieldEqRef | FiniteRange
    | ForEach | IterationPointer | LengthEq | LengthLteRef | Literal | Lt | Lte | MapLookup | MaxOf | Multiply
    | NormalizeRef | Not | Ordered | Pointer | PrefixedIdentity | RankIsIndex | SafeRange | SetContains | TupleTags | UniqueBy

  const HANDLERS: map<string, Opcode> := map[
    "all" := All, "any" := Any, "array_at" := ArrayAt, "array_length" := ArrayLength, "coalesce" := Coalesce,
    "concat" := Concat, "corpus_eq_ref" := CorpusEqRef, "eq" := Eq, "field_eq_ref" := FieldEqRef,
    "finite_range" := FiniteRange, "for_each" := ForEach, "iteration_pointer" := IterationPointer,
    "length_eq" := LengthEq, "length_lte_ref" := LengthLteRef, "literal" := Literal, "lt" := Lt, "lte" := Lte,
    "map_lookup" := MapLookup, "max" := MaxOf, "multiply" := Multiply, "normalize_ref" := NormalizeRef, "not" := Not,
    "ordered_score_desc_id_asc" := Ordered, "pointer" := Pointer, "prefixed_identity" := PrefixedIdentity,
    "rank_is_index_plus_one" := RankIsIndex, "safe_integer_range" := SafeRange, "set_contains" := SetContains,
    "tuple_tags" := TupleTags, "unique_by" := UniqueBy]

  /** `refinement_handler` on the expression's own opcode. */
  function OpcodeOf(e: Json): Option<Opcode> {
    var op := GetStr(e, "op");
    if op.Some? && op.value in HANDLERS then Some(HANDLERS[op.value]) else None
  }

  datatype Marker = Expression | ExpressionArray | Plain

  /** The fields the producer declares for an opcode, in key order. */
  function Declared(op: Opcode): seq<(string, Marker)> {
    match op
    case All => [("values", ExpressionArray)]
    case Any => [("values", ExpressionArray)]
    case ArrayAt => [("array", Expression), ("index", Expression)]
    case ArrayLength => [("value", Expression)]
    case Coalesce => [("values", ExpressionArray)]
    case Concat => [("values", ExpressionArray)]
    case CorpusEqRef => [("corpus", Expression), ("expected", Expression)]
    case Eq => [("left", Expression), ("right", Expression)]
    case FieldEqRef => [("expected", Expression), ("value", Expression)]
    case FiniteRange => [("maximum", Plain), ("minimum", Plain), ("value", Expression)]
    case ForEach => [("collection", Expression), ("predicate", Expression), ("scope", Plain)]
    case IterationPointer => [("path", Plain), ("scope", Plain)]
    case LengthEq => [("actual", Expression), ("expected", Expression)]
    case LengthLteRef => [("actual", Expression), ("limit", Expression)]
    case Literal => [("value", Plain)]
    case Lt => [("left", Expression), ("right", Expression)]
    case Lte => [("left", Expression), ("right", Expression)]
    case MapLookup => [("key", Expression), ("keyField", Plain), ("map", Expression), ("valueField", Plain)]
    case MaxOf => [("values", ExpressionArray)]
    case Multiply => [("left", Expression), ("right", Expression)]
    case NormalizeRef => [("dependency", Plain), ("value", Expression)]
    case Not => [("value", Expression)]
    case Ordered => [("collection", Expression), ("id", Expression), ("idOrder", Plain), ("scope", Plain), ("score", Expression)]
    case Pointer => [("path", Plain), ("root", Plain)]
    case PrefixedIdentity => [("identity", Expression), ("prefix", Plain), ("value", Expression)]
    case RankIsIndex => [("collection", Expression), ("rank", Expression), ("scope", Plain)]
    case SafeRange => [("maximum", Expression), ("minimum", Plain), ("value", Expression)]
    case SetContains => [("set", Expression), ("value", Expression)]
    case TupleTags => [("actual", Expression), ("expected", Plain), ("field", Plain)]
    case UniqueBy => [("collection", Expression), ("key", Expression), ("scope", Plain)]
  }

  // ---------- the syntactic check ----------

  /** `contains_result_pointer`; nothing where the source reports or panics on a malformed expression. */
  function ContainsResult(e: Json): Option<bool>
    decreases e, 2, 0
  {
    var op := OpcodeOf(e);
    if op == Some(Pointer) && GetStr(e, "root") == Some("result") then Some(true)
    else if op.None? then None
    else InFields(e, Declared(op.value), 0)
  }

  /** The declared fields from position `k` on; the first hit ends the search. */
  function InFields(e: Json, declared: seq<(string, Marker)>, k: nat): Option<bool>
    requires e.Obj? && k <= |declared|
    decreases e, 1, |declared| - k
  {
    if k == |declared| then Some(false)
    else
      var field := declared[k].0;
      var here :=
        if declared[k].1 == Plain then Some(false)
        else if field !in e.fields then None
        else if declared[k].1 == Expression then ContainsResult(e.fields[field])
        else if e.fields[field].Arr? then InItems(e.fields[field], 0) else None;
      if here != Some(false) then here else InFields(e, declared, k + 1)
  }

  function InItems(v: Json, k: nat): Option<bool>
    requires v.Arr? && k <= |v.items|
    decreases v, 1, |v.items| - k
  {
    if k == |v.items| then Some(false)
    else
      var here := ContainsResult(v.items[k]);
      if here != Some(false) then here else InItems(v, k + 1)
  }

  // ---------- values ----------

  datatype EvalValue = Ref(value: Json) | Refs(values: seq<Json>) | Owned(value: Json)

  /** A value, or the message of the error that ended the evaluation. */
  type EvalResult = Result<EvalValue, string>

  function Truth(b: bool): EvalResult {
    Success(Owned(Bool(b)))
  }

  /** `EvalValue::one`. */
  function One(v: EvalResult, name: string): Result<Json, string> {
    var at :- v;
    if !at.Refs? then Success(at.value)
    else if |at.values| == 1 then Success(at.values[0])
    else Failure(name + " expected one value")
  }

  function BoolOf(v: EvalResult, name: string): Result<bool, string> {
    var one :- One(v, name);
    if one.Bool? then Success(one.b) else Failure(name + " must evaluate to boolean")
  }

  /** `as_f64`, exact here. */
  function RealOf(v: Json): Option<real> {
    if !v.Num? then None else if v.n.Int? then Some(v.n.i as real) else Some(v.n.f)
  }

  function NumberOf(v: EvalResult, name: string): Result<real, string> {
    var one :- One(v, name);
    if RealOf(one).Some? then Success(RealOf(one).value) else Failure(name + " must evaluate to number")
  }

  function StringOf(v: EvalResult, name: string): Result<string, string> {
    var one :- One(v, name);
    if one.Str? then Success(one.s) else Failure(name + " must evaluate to string")
  }

  /** `as_u64`. */
  function CountOf(v: Json): Option<nat> {
    if v.Num? && v.n.Int? && 0 <= v.n.i <= U64_MAX then Some(v.n.i) else None
  }

  /** `array_values`: only a borrowed array. */
  function BorrowedArray(v: EvalResult, name: string): Result<seq<Json>, string> {
    var at :- v;
    if !at.Ref? then Failure(name + " must evaluate to a borrowed array")
    else if at.value.Arr? then Success(at.value.items) else Failure(name + " must evaluate to array")
  }

  function ArrayOf(v: EvalResult, name: string, otherwise: string): Result<seq<Json>, string> {
    var one :- One(v, name);
    if one.Arr? then Success(one.items) else Failure(otherwise)
  }

  /** `values_equal`: several values cannot be compared as one. */
  function Equal(a: EvalValue, b: EvalValue): Result<bool, string> {
    if a.Refs? || b.Refs? then Failure("array of values cannot be compared as a scalar") else Success(a.value == b.value)
  }

  function EqualOutcomes(a: EvalResult, b: EvalResult): EvalResult {
    var left :- a;
    var right :- b;
    var same :- Equal(left, right);
    Truth(same)
  }

  // ---------- plain fields ----------

  /** The opcode as the expression spells it. */
  function OpText(e: Json): string {
    if GetStr(e, "op").Some? then GetStr(e, "op").value else ""
  }

  function Missing(e: Json, name: string): string {
    "refinement opcode " + OpText(e) + " field " + name + " is missing"
  }

  function Plainly(e: Json, name: string): Result<Json, string> {
    if Get(e, name).Some? then Success(Get(e, name).value) else Failure(Missing(e, name))
  }

  function TextField(e: Json, name: string, otherwise: string): Result<string, string> {
    var v :- Plainly(e, name);
    if v.Str? then Success(v.s) else Failure(otherwise)
  }

  function NumberField(e: Json, name: string, otherwise: string): Result<real, string> {
    var v :- Plainly(e, name);
    if RealOf(v).Some? then Success(RealOf(v).value) else Failure(otherwise)
  }

  function ArrayField(e: Json, name: string, otherwise: string): Result<seq<Json>, string> {
    var v :- Plainly(e, name);
    if v.Arr? then Success(v.items) else Failure(otherwise)
  }

  // ---------- the handlers, over evaluated operands, the first error first ----------

  datatype Context = Context(request: Json, result: Option<Json>, normalizer: (string, string) -> Option<string>, keys: KeyOrder)

  function PointerMessage(e: PointerError): string {
    match e
    case BadEscape => "invalid JSON pointer escape"
    case MissingField(field) => "JSON pointer field " + field + " is missing"
    case BadIndex => "JSON pointer array index is invalid"
    case MissingIndex => "JSON pointer array index is missing"
    case NotACollection => "JSON pointer wildcard requires a collection"
    case Scalar => "JSON pointer traversed a scalar"
    case NothingSelected => "JSON pointer selected no values"
  }

  /** Without a wildcard a selection is never empty, so its first value exists. */
  function PointerValue(root: Json, path: string, keys: KeyOrder): EvalResult {
    var r := Walk([root], RawSegments(path), keys);
    if r.Failure? then Failure(PointerMessage(r.error))
    else if WILDCARD in Split(path) then Success(Refs(r.value))
    else if r.value == [] then Failure(PointerMessage(NothingSelected))
    else Success(Ref(r.value[0]))
  }

  function PointerOp(e: Json, ctx: Context): EvalResult {
    var path :- TextField(e, "path", "pointer path is not a string");
    var root :- TextField(e, "root", "pointer root is invalid");
    if root == "request" then PointerValue(ctx.request, path, ctx.keys)
    else if root != "result" then Failure("pointer root is invalid")
    else if ctx.result.None? then Failure("result pointer used without a result")
    else PointerValue(ctx.result.value, path, ctx.keys)
  }

  function IterationOp(e: Json, keys: KeyOrder, current: Option<(string, Json)>): EvalResult {
    var path :- TextField(e, "path", "iteration pointer path is not a string");
    var scope :- TextField(e, "scope", "iteration pointer scope is not a string");
    if current.None? then Failure("iteration pointer has no scope")
    else if current.value.0 != scope then Failure("iteration scope mismatch: " + scope)
    else PointerValue(current.value.1, path, keys)
  }

  function LiteralOp(e: Json): EvalResult {
    var v :- Plainly(e, "value");
    Success(Owned(v))
  }

  function LengthOp(v: EvalResult): EvalResult {
    var at :- v;
    if at.Refs? then Success(Owned(Num(Int(|at.values|))))
    else
      var items :- ArrayOf(v, "array_length", "array_length requires an array");
      Success(Owned(Num(Int(|items|))))
  }

  function ArrayAtOp(source: EvalResult, index: EvalResult): EvalResult {
    var _ :- source;
    var at :- NumberOf(index, "array index");
    if at < 0.0 || at.Floor as real != at || at > U64_MAX as real then Failure("array index is not a safe integer")
    else
      var items :- BorrowedArray(source, "array_at");
      if at.Floor < |items| then Success(Ref(items[at.Floor])) else Failure("array_at index is missing")
  }

  /** `all`, `any` and `for_each` stop at the first operand that decides; an error before it is the outcome. */
  function Decide(values: seq<EvalResult>, name: string, stop: bool): EvalResult {
    if values == [] then Truth(!stop)
    else
      var b :- BoolOf(values[0], name);
      if b == stop then Truth(stop) else Decide(values[1..], name, stop)
  }

  function FirstNonNull(values: seq<EvalResult>): EvalResult {
    if values == [] then Success(Owned(Null))
    else
      var one :- One(values[0], "coalesce");
      if one != Null then values[0] else FirstNonNull(values[1..])
  }

  function Joined(values: seq<EvalResult>): Result<string, string> {
    if values == [] then Success("")
    else
      var head :- StringOf(values[0], "concat");
      var tail :- Joined(values[1..]);
      Success(head + tail)
  }

  function ConcatOp(values: seq<EvalResult>): EvalResult {
    var s :- Joined(values);
    Success(Owned(Str(s)))
  }

  /** The greatest operand, or nothing when there is none. */
  function Largest(values: seq<EvalResult>): Result<Option<real>, string> {
    if values == [] then Success(None)
    else
      var head :- NumberOf(values[0], "max");
      var tail :- Largest(values[1..]);
      Success(Some(if tail.Some? && head < tail.value then tail.value else head))
  }

  function MaxOp(values: seq<EvalResult>): EvalResult {
    var greatest :- Largest(values);
    if greatest.None? then Failure("max produced a non-finite number") else Success(Owned(Num(Float(greatest.value))))
  }

  function CompareOp(left: EvalResult, right: EvalResult, name: string, orEqual: bool): EvalResult {
    var a :- NumberOf(left, name);
    var b :- NumberOf(right, name);
    Truth(a < b || (orEqual && a == b))
  }

  function MultiplyOp(left: EvalResult, right: EvalResult): EvalResult {
    var a :- NumberOf(left, "multiply");
    var b :- NumberOf(right, "multiply");
    Success(Owned(Num(Float(a * b))))
  }

  function NotOp(v: EvalResult): EvalResult {
    var b :- BoolOf(v, "not");
    Truth(!b)
  }

  function NormalizeOp(e: Json, v: EvalResult, normalizer: (string, string) -> Option<string>): EvalResult {
    var dependency :- TextField(e, "dependency", "normalize_ref dependency is not a string");
    var s :- StringOf(v, "normalize_ref");
    var normalized := normalizer(dependency, s);
    if normalized.Some? then Success(Owned(Str(normalized.value)))
    else Failure("normalization dependency " + dependency + " unavailable")
  }

  function Lookup(entries: seq<Json>, key: EvalValue, keyField: string, valueField: string): EvalResult {
    if entries == [] then Success(Owned(Null))
    else if !entries[0].Obj? then Failure("map_lookup entry is not an object")
    else if keyField !in entries[0].fields then Lookup(entries[1..], key, keyField, valueField)
    else
      var same :- Equal(Ref(entries[0].fields[keyField]), key);
      if !same then Lookup(entries[1..], key, keyField, valueField)
      else if valueField in entries[0].fields then Success(Ref(entries[0].fields[valueField]))
      else Failure("map_lookup value field is missing")
  }

  function MapLookupOp(e: Json, key: EvalResult, table: EvalResult): EvalResult {
    var sought :- key;
    var keyField :- TextField(e, "keyField", "map_lookup keyField is not a string");
    var valueField :- TextField(e, "valueField", "map_lookup valueField is not a string");
    var entries :- BorrowedArray(table, "map_lookup");
    Lookup(entries, sought, keyField, valueField)
  }

  function Holds(values: seq<Json>, v: EvalValue): EvalResult {
    if values == [] then Truth(false)
    else
      var same :- Equal(Ref(values[0]), v);
      if same then Truth(true) else Holds(values[1..], v)
  }

  function SetContainsOp(table: EvalResult, v: EvalResult): EvalResult {
    var values :- BorrowedArray(table, "set_contains");
    var sought :- v;
    Holds(values, sought)
  }

  /** `EvalValue::refs`. */
  function RefsOf(v: EvalValue): seq<Json> {
    if v.Refs? then v.values else [v.value]
  }

  function RangeOp(e: Json, v: EvalResult): EvalResult {
    var low :- NumberField(e, "minimum", "finite_range minimum is not a number");
    var high :- NumberField(e, "maximum", "finite_range maximum is not a number");
    var at :- v;
    Truth(forall i :: 0 <= i < |RefsOf(at)| ==> RealOf(RefsOf(at)[i]).Some? && low <= RealOf(RefsOf(at)[i]).value <= high)
  }

  function SafeRangeOp(e: Json, maximum: EvalResult, v: EvalResult): EvalResult {
    var low :- NumberField(e, "minimum", "safe_integer_range minimum is not a number");
    var high :- NumberOf(maximum, "safe_integer_range maximum");
    var at :- v;
    Truth(forall i :: 0 <= i < |RefsOf(at)| ==>
      var x := CountOf(RefsOf(at)[i]);
      x.Some? && low <= x.value as real <= high && x.value <= JSON_SAFE_INTEGER_MAX)
  }

  function TupleTagsOp(e: Json, actual: EvalResult): EvalResult {
    var expected :- ArrayField(e, "expected", "tuple_tags expected is not an array");
    var field :- TextField(e, "field", "tuple_tags field is not a string");
    var items :- ArrayOf(actual, "tuple_tags", "tuple_tags actual is not an array");
    Truth(|items| == |expected| && forall i :: 0 <= i < |items| ==>
      expected[i].Str? && Get(items[i], field) == Some(expected[i]))
  }

  function LengthCompareOp(actual: EvalResult, bound: EvalResult, exact: bool): EvalResult {
    var _ :- actual;
    var _ :- bound;
    var items :- ArrayOf(actual, "length assertion", "length assertion actual is not an array");
    var n :- NumberOf(bound, "length assertion expected");
    Truth(if exact then |items| as real == n else |items| as real <= n)
  }

  function PrefixedOp(e: Json, identity: EvalResult, value: EvalResult): EvalResult {
    var id :- StringOf(identity, "identity");
    var prefix :- TextField(e, "prefix", "prefix is not a string");
    var v :- StringOf(value, "value");
    Truth(v == prefix + id)
  }

  function Unique(keys: seq<EvalResult>, seen: seq<EvalValue>): EvalResult {
    if keys == [] then Truth(true)
    else
      var key :- keys[0];
      if exists i :: 0 <= i < |seen| && Equal(seen[i], key) == Success(true) then Truth(false)
      else Unique(keys[1..], seen + [key])
  }

  /** The contract's order check: scores never rise, and equal scores keep ids in UTF-16 order. */
  function InOrder(scores: seq<EvalResult>, ids: seq<EvalResult>, previous: Option<(real, string)>): EvalResult
    requires |scores| == |ids|
  {
    if scores == [] then Truth(true)
    else
      var score :- NumberOf(scores[0], "ordered score");
      var id :- StringOf(ids[0], "ordered id");
      if previous.Some?
        && (score > previous.value.0 || (score == previous.value.0 && IdLess(id, previous.value.1))) then Truth(false)
      else InOrder(scores[1..], ids[1..], Some((score, id)))
  }

  function Ranks(ranks: seq<EvalResult>, index: nat): EvalResult {
    if ranks == [] then Truth(true)
    else
      var one :- One(ranks[0], "rank");
      if CountOf(one) != Some(index + 1) then Truth(false) else Ranks(ranks[1..], index + 1)
  }

  // ---------- evaluation ----------

  type Current = Option<(string, Json)>

  function Eval(e: Json, ctx: Context, current: Current): EvalResult
    decreases e, 3
  {
    var op := OpcodeOf(e);
    if op.None? then Failure(HeadMessage(e))
    else
      match op.value
      case Literal => LiteralOp(e)
      case Pointer => PointerOp(e, ctx)
      case IterationPointer => IterationOp(e, ctx.keys, current)
      case ArrayLength => LengthOp(Sub(e, "value", ctx, current))
      case ArrayAt => ArrayAtOp(Sub(e, "array", ctx, current), Sub(e, "index", ctx, current))
      case All => OverValues(Subs(e, ctx, current), values => Decide(values, OpText(e), false))
      case Any => OverValues(Subs(e, ctx, current), values => Decide(values, OpText(e), true))
      case Coalesce => OverValues(Subs(e, ctx, current), FirstNonNull)
      case Concat => OverValues(Subs(e, ctx, current), ConcatOp)
      case MaxOf => OverValues(Subs(e, ctx, current), MaxOp)
      case Eq => EqualOutcomes(Sub(e, "left", ctx, current), Sub(e, "right", ctx, current))
      case Lt => CompareOp(Sub(e, "left", ctx, current), Sub(e, "right", ctx, current), OpText(e), false)
      case Lte => CompareOp(Sub(e, "left", ctx, current), Sub(e, "right", ctx, current), OpText(e), true)
      case Multiply => MultiplyOp(Sub(e, "left", ctx, current), Sub(e, "right", ctx, current))
      case Not => NotOp(Sub(e, "value", ctx, current))
      case NormalizeRef => NormalizeOp(e, Sub(e, "value", ctx, current), ctx.normalizer)
      case MapLookup => MapLookupOp(e, Sub(e, "key", ctx, current), Sub(e, "map", ctx, current))
      case SetContains => SetContainsOp(Sub(e, "set", ctx, current), Sub(e, "value", ctx, current))
      case FieldEqRef => EqualOutcomes(Sub(e, "value", ctx, current), Sub(e, "expected", ctx, current))
      case CorpusEqRef => EqualOutcomes(Sub(e, "corpus", ctx, current), Sub(e, "expected", ctx, current))
      case FiniteRange => RangeOp(e, Sub(e, "value", ctx, current))
      case SafeRange => SafeRangeOp(e, Sub(e, "maximum", ctx, current), Sub(e, "value", ctx, current))
      case TupleTags => TupleTagsOp(e, Sub(e, "actual", ctx, current))
      case LengthEq => LengthCompareOp(Sub(e, "actual", ctx, current), Sub(e, "expected", ctx, current), true)
      case LengthLteRef => LengthCompareOp(Sub(e, "actual", ctx, current), Sub(e, "limit", ctx, current), false)
      case PrefixedIdentity => PrefixedOp(e, Sub(e, "identity", ctx, current), Sub(e, "value", ctx, current))
      case UniqueBy =>
        var items :- Items(e, "unique_by", ctx, current);
        var keys :- Each(e, "key", items, ctx);
        Unique(keys, [])
      case Ordered =>
        var items :- Items(e, "ordered", ctx, current);
        var scores :- Each(e, "score", items, ctx);
        var ids :- Each(e, "id", items, ctx);
        InOrder(scores, ids, None)
      case ForEach =>
        var items :- Items(e, "for_each", ctx, current);
        var outcomes :- Each(e, "predicate", items, ctx);
        Decide(outcomes, "for_each predicate", false)
      case RankIsIndex =>
        var items :- Items(e, "rank", ctx, current);
        var ranks :- Each(e, "rank", items, ctx);
        Ranks(ranks, 0)
  }

  /** Why an expression has no handler. */
  function HeadMessage(e: Json): string {
    if !e.Obj? then "refinement expression must be an object"
    else if GetStr(e, "op").None? then "refinement expression op is missing"
    else "unsupported refinement opcode " + OpText(e)
  }

  function OverValues(values: Result<seq<EvalResult>, string>, f: seq<EvalResult> -> EvalResult): EvalResult {
    var operands :- values;
    f(operands)
  }

  /** One operand. */
  function Sub(e: Json, field: string, ctx: Context, current: Current): EvalResult
    requires e.Obj?
    decreases e, 1
  {
    if field in e.fields then Eval(e.fields[field], ctx, current) else Failure(Missing(e, field))
  }

  /** The operands of a variadic opcode. */
  function Subs(e: Json, ctx: Context, current: Current): Result<seq<EvalResult>, string>
    requires e.Obj?
    decreases e, 1
  {
    if "values" !in e.fields then Failure(Missing(e, "values"))
    else if !e.fields["values"].Arr? then Failure(OpText(e) + ".values is not an array")
    else
      var items := e.fields["values"].items;
      Success(seq(|items|, i requires 0 <= i < |items| => Eval(items[i], ctx, current)))
  }

  /** The collection of a scoped opcode, which messages call `name`. */
  function Items(e: Json, name: string, ctx: Context, current: Current): Result<seq<Json>, string>
    requires e.Obj?
    decreases e, 2
  {
    var items :- ArrayOf(Sub(e, "collection", ctx, current), OpText(e), name + " collection is not an array");
    var _ :- TextField(e, "scope", name + " scope is not a string");
    Success(items)
  }

  /** An operand evaluated once for each item of the collection, in the opcode's own scope. */
  function Each(e: Json, field: string, items: seq<Json>, ctx: Context): (r: Result<seq<EvalResult>, string>)
    requires e.Obj?
    ensures r.Success? ==> |r.value| == |items|
    decreases e, 1
  {
    if field !in e.fields then Failure(Missing(e, field))
    else
      var scope := GetStr(e, "scope");
      Success(seq(|items|, i requires 0 <= i < |items| =>
        Eval(e.fields[field], ctx, Some((if scope.Some? then scope.value else "", items[i])))))
  }

  // ---------- independence of the result ----------

  /** A clean expression has only clean operands. */
  lemma {:induction false} CleanFields(e: Json, declared: seq<(string, Marker)>, k: nat, i: nat)
    requires e.Obj? && k <= i < |declared| && InFields(e, declared, k) == Some(false)
    ensures declared[i].1 == Expression ==>
      declared[i].0 in e.fields && ContainsResult(e.fields[declared[i].0]) == Some(false)
    ensures declared[i].1 == ExpressionArray ==>
      declared[i].0 in e.fields && e.fields[declared[i].0].Arr? && InItems(e.fields[declared[i].0], 0) == Some(false)
    decreases i - k
  {
    hide ContainsResult, InItems;
    if k < i {
      CleanFields(e, declared, k + 1, i);
    }
  }

  lemma {:induction false} CleanItems(v: Json, k: nat, i: nat)
    requires v.Arr? && k <= i < |v.items| && InItems(v, k) == Some(false)
    ensures ContainsResult(v.items[i]) == Some(false)
    decreases i - k
  {
    hide ContainsResult;
    if k < i {
      CleanItems(v, k + 1, i);
    }
  }

  predicate Clean(e: Json) {
    ContainsResult(e) == Some(false)
  }

  lemma CleanOperand(e: Json, op: Opcode, field: string)
    requires Clean(e) && OpcodeOf(e) == Some(op) && (field, Expression) in Declared(op)
    ensures e.Obj? && field in e.fields && Clean(e.fields[field])
  {
    hide InFields;
    var i :| 0 <= i < |Declared(op)| && Declared(op)[i] == (field, Expression);
    CleanFields(e, Declared(op), 0, i);
  }

  lemma SameOperand(e: Json, op: Opcode, field: string, ctx: Context, other: Option<Json>, current: Current)
    requires Clean(e) && OpcodeOf(e) == Some(op) && (field, Expression) in Declared(op)
    ensures Sub(e, field, ctx, current) == Sub(e, field, ctx.(result := other), current)
    decreases e, 1
  {
    hide Clean, Declared, OpcodeOf;
    CleanOperand(e, op, field);
    ResultIrrelevant(e.fields[field], ctx, other, current);
  }

  lemma SameOperands(e: Json, op: Opcode, ctx: Context, other: Option<Json>, current: Current)
    requires Clean(e) && OpcodeOf(e) == Some(op) && Declared(op) == [("values", ExpressionArray)]
    ensures e.Obj? && Subs(e, ctx, current) == Subs(e, ctx.(result := other), current)
    decreases e, 1
  {
    hide Eval, InFields, InItems;
    CleanFields(e, Declared(op), 0, 0);
    var v := e.fields["values"];
    forall i | 0 <= i < |v.items| ensures Eval(v.items[i], ctx, current) == Eval(v.items[i], ctx.(result := other), current) {
      CleanItems(v, 0, i);
      ResultIrrelevant(v.items[i], ctx, other, current);
    }
    assert Subs(e, ctx, current).value == Subs(e, ctx.(result := other), current).value;
  }

  lemma SameEach(e: Json, op: Opcode, field: string, items: seq<Json>, ctx: Context, other: Option<Json>)
    requires Clean(e) && OpcodeOf(e) == Some(op) && (field, Expression) in Declared(op)
    ensures e.Obj? && Each(e, field, items, ctx) == Each(e, field, items, ctx.(result := other))
    decreases e, 1
  {
    hide Eval, Clean, Declared, OpcodeOf;
    CleanOperand(e, op, field);
    var scope := GetStr(e, "scope");
    var name := if scope.Some? then scope.value else "";
    forall i | 0 <= i < |items|
      ensures Eval(e.fields[field], ctx, Some((name, items[i])))
           == Eval(e.fields[field], ctx.(result := other), Some((name, items[i])))
    {
      ResultIrrelevant(e.fields[field], ctx, other, Some((name, items[i])));
    }
    assert Each(e, field, items, ctx).value == Each(e, field, items, ctx.(result := other)).value;
  }

  lemma SameItems(e: Json, op: Opcode, name: string, ctx: Context, other: Option<Json>, current: Current)
    requires Clean(e) && OpcodeOf(e) == Some(op) && ("collection", Expression) in Declared(op)
    ensures e.Obj? && Items(e, name, ctx, current) == Items(e, name, ctx.(result := other), current)
    decreases e, 2
  {
    hide Clean, Declared, OpcodeOf, Sub;
    CleanOperand(e, op, "collection");
    SameOperand(e, op, "collection", ctx, other, current);
  }

  /**
    An assertion that the syntactic check finds free of result pointers evaluates
    the same for every result, and without one: in every scope, error for error.
   */
  lemma {:induction false} ResultIrrelevant(e: Json, ctx: Context, other: Option<Json>, current: Current)
    requires Clean(e)
    ensures Eval(e, ctx, current) == Eval(e, ctx.(result := other), current)
    decreases e, 4
  {
    hide Eval, Clean, Declared;
    CleanHead(e);
    var op := OpcodeOf(e).value;
    if op.Literal? || op.Pointer? || op.IterationPointer? {
      SameLeaf(e, op, ctx, other, current);
    } else if op.All? || op.Any? || op.Coalesce? || op.Concat? || op.MaxOf? {
      SameVariadic(e, op, ctx, other, current);
    } else if op.UniqueBy? {
      SameUnique(e, ctx, other, current);
    } else if op.Ordered? {
      SameOrdered(e, ctx, other, current);
    } else if op.ForEach? || op.RankIsIndex? {
      SameJudged(e, op, ctx, other, current);
    } else if op.Eq? || op.Lt? || op.Lte? || op.Multiply? {
      SameBinary(e, op, ctx, other, current);
    } else if op.FiniteRange? || op.SafeRange? || op.TupleTags? {
      SameRange(e, op, ctx, other, current);
    } else if op.LengthEq? || op.LengthLteRef? || op.PrefixedIdentity? {
      SameLength(e, op, ctx, other, current);
    } else if op.FieldEqRef? || op.CorpusEqRef? {
      SameReference(e, op, ctx, other, current);
    } else {
      SameOperandwise(e, op, ctx, other, current);
    }
  }

  lemma SameLeaf(e: Json, op: Opcode, ctx: Context, other: Option<Json>, current: Current)
    requires Clean(e) && OpcodeOf(e) == Some(op) && (op.Literal? || op.Pointer? || op.IterationPointer?)
    ensures Eval(e, ctx, current) == Eval(e, ctx.(result := other), current)
  {
    hide IterationOp, PointerValue, Clean, OpcodeOf;
    CleanHead(e);
  }

  lemma SameVariadic(e: Json, op: Opcode, ctx: Context, other: Option<Json>, current: Current)
    requires Clean(e) && OpcodeOf(e) == Some(op) && (op.All? || op.Any? || op.Coalesce? || op.Concat? || op.MaxOf?)
    ensures Eval(e, ctx, current) == Eval(e, ctx.(result := other), current)
    decreases e, 3
  {
    hide Subs, OpcodeOf, Clean, Decide, FirstNonNull, ConcatOp, MaxOp, OpText;
    SameOperands(e, op, ctx, other, current);
  }

  lemma SameUnique(e: Json, ctx: Context, other: Option<Json>, current: Current)
    requires Clean(e) && OpcodeOf(e) == Some(UniqueBy)
    ensures Eval(e, ctx, current) == Eval(e, ctx.(result := other), current)
    decreases e, 3
  {
    hide Each, Items, OpcodeOf, Clean, Unique, InOrder, Ranks, Decide, Sub, Subs, PointerOp, IterationOp;
    SameItems(e, UniqueBy, "unique_by", ctx, other, current);
    if Items(e, "unique_by", ctx, current).Success? {
      SameEach(e, UniqueBy, "key", Items(e, "unique_by", ctx, current).value, ctx, other);
    }
  }

  lemma SameOrdered(e: Json, ctx: Context, other: Option<Json>, current: Current)
    requires Clean(e) && OpcodeOf(e) == Some(Ordered)
    ensures Eval(e, ctx, current) == Eval(e, ctx.(result := other), current)
    decreases e, 3
  {
    hide Each, Items, OpcodeOf, Clean, Unique, InOrder, Ranks, Decide, Sub, Subs, PointerOp, IterationOp;
    SameItems(e, Ordered, "ordered", ctx, other, current);
    if Items(e, "ordered", ctx, current).Success? {
      SameEach(e, Ordered, "score", Items(e, "ordered", ctx, current).value, ctx, other);
      SameEach(e, Ordered, "id", Items(e, "ordered", ctx, current).value, ctx, other);
    }
  }

  lemma SameJudged(e: Json, op: Opcode, ctx: Context, other: Option<Json>, current: Current)
    requires Clean(e) && OpcodeOf(e) == Some(op) && op in {ForEach, RankIsIndex}
    ensures Eval(e, ctx, current) == Eval(e, ctx.(result := other), current)
    decreases e, 3
  {
    hide Each, Items, OpcodeOf, Clean, Unique, InOrder, Ranks, Decide, Sub, Subs, PointerOp, IterationOp;
    SameItems(e, op, if op == ForEach then "for_each" else "rank", ctx, other, current);
    var collected := Items(e, if op == ForEach then "for_each" else "rank", ctx, current);
    if collected.Success? {
      SameEach(e, op, if op == ForEach then "predicate" else "rank", collected.value, ctx, other);
    }
  }

  lemma CleanHead(e: Json)
    requires Clean(e)
    ensures e.Obj? && OpcodeOf(e).Some? && (OpcodeOf(e) == Some(Pointer) ==> GetStr(e, "root") != Some("result"))
  {
    hide InFields;
  }

  /** Every single operand evaluates the same. */
  lemma SameDeclared(e: Json, op: Opcode, ctx: Context, other: Option<Json>, current: Current)
    requires Clean(e) && OpcodeOf(e) == Some(op)
    ensures e.Obj?
    ensures forall field :: (field, Expression) in Declared(op) ==>
      Sub(e, field, ctx, current) == Sub(e, field, ctx.(result := other), current)
    decreases e, 2
  {
    hide Sub, Clean, OpcodeOf, Declared;
    CleanHead(e);
    forall field | (field, Expression) in Declared(op)
      ensures Sub(e, field, ctx, current) == Sub(e, field, ctx.(result := other), current)
    {
      SameOperand(e, op, field, ctx, other, current);
    }
  }

  /** The opcodes that compare or multiply two operands. */
  lemma SameBinary(e: Json, op: Opcode, ctx: Context, other: Option<Json>, current: Current)
    requires Clean(e) && OpcodeOf(e) == Some(op) && op in {Eq, Lt, Lte, Multiply}
    ensures Eval(e, ctx, current) == Eval(e, ctx.(result := other), current)
    decreases e, 3
  {
    hide Sub, Clean, OpcodeOf, EqualOutcomes, CompareOp, MultiplyOp, Subs, Each, Items, PointerOp, IterationOp, Unique,
      InOrder, Ranks, Decide;
    SameDeclared(e, op, ctx, other, current);
    assert ("left", Expression) in Declared(op) && ("right", Expression) in Declared(op);
  }

  /** The opcodes that look into single operands in the current scope. */
  lemma SameOperandwise(e: Json, op: Opcode, ctx: Context, other: Option<Json>, current: Current)
    requires Clean(e) && OpcodeOf(e) == Some(op)
    requires op in {ArrayLength, ArrayAt, Not, NormalizeRef, MapLookup, SetContains}
    ensures Eval(e, ctx, current) == Eval(e, ctx.(result := other), current)
    decreases e, 3
  {
    hide Sub, Clean, OpcodeOf, LengthOp, ArrayAtOp, NotOp, NormalizeOp, MapLookupOp, SetContainsOp, Subs, Each, Items,
      PointerOp, IterationOp, Unique, InOrder, Ranks, Decide;
    SameDeclared(e, op, ctx, other, current);
    match op
    case ArrayAt => assert ("array", Expression) in Declared(op) && ("index", Expression) in Declared(op);
    case MapLookup => assert ("key", Expression) in Declared(op) && ("map", Expression) in Declared(op);
    case SetContains => assert ("set", Expression) in Declared(op) && ("value", Expression) in Declared(op);
    case ArrayLength => assert ("value", Expression) in Declared(op);
    case Not => assert ("value", Expression) in Declared(op);
    case NormalizeRef => assert ("value", Expression) in Declared(op);
    case _ =>
  }

  /** The opcodes that check a value against a range or a list of tags. */
  lemma SameRange(e: Json, op: Opcode, ctx: Context, other: Option<Json>, current: Current)
    requires Clean(e) && OpcodeOf(e) == Some(op) && op in {FiniteRange, SafeRange, TupleTags}
    ensures Eval(e, ctx, current) == Eval(e, ctx.(result := other), current)
    decreases e, 3
  {
    hide Sub, Clean, OpcodeOf, RangeOp, SafeRangeOp, TupleTagsOp, Subs, Each, Items, PointerOp, IterationOp, Unique, InOrder,
      Ranks, Decide;
    SameDeclared(e, op, ctx, other, current);
    match op
    case FiniteRange => assert ("value", Expression) in Declared(op);
    case SafeRange => assert ("maximum", Expression) in Declared(op) && ("value", Expression) in Declared(op);
    case TupleTags => assert ("actual", Expression) in Declared(op);
  }

  /** The opcodes that check a length or a prefix. */
  lemma SameLength(e: Json, op: Opcode, ctx: Context, other: Option<Json>, current: Current)
    requires Clean(e) && OpcodeOf(e) == Some(op) && op in {LengthEq, LengthLteRef, PrefixedIdentity}
    ensures Eval(e, ctx, current) == Eval(e, ctx.(result := other), current)
    decreases e, 3
  {
    hide Sub, Clean, OpcodeOf, LengthCompareOp, PrefixedOp, Subs, Each, Items, PointerOp, IterationOp, Unique, InOrder, Ranks,
      Decide;
    SameDeclared(e, op, ctx, other, current);
    match op
    case LengthEq => assert ("actual", Expression) in Declared(op) && ("expected", Expression) in Declared(op);
    case LengthLteRef => assert ("actual", Expression) in Declared(op) && ("limit", Expression) in Declared(op);
    case PrefixedIdentity => assert ("identity", Expression) in Declared(op) && ("value", Expression) in Declared(op);
  }

  /** The opcodes that compare a value with a reference. */
  lemma SameReference(e: Json, op: Opcode, ctx: Context, other: Option<Json>, current: Current)
    requires Clean(e) && OpcodeOf(e) == Some(op) && op in {FieldEqRef, CorpusEqRef}
    ensures Eval(e, ctx, current) == Eval(e, ctx.(result := other), current)
    decreases e, 3
  {
    hide Sub, Clean, OpcodeOf, EqualOutcomes, Subs, Each, Items, PointerOp, IterationOp, Unique, InOrder, Ranks, Decide;
    SameDeclared(e, op, ctx, other, current);
    assert ("expected", Expression) in Declared(op);
    if op == FieldEqRef {
      assert ("value", Expression) in Declared(op);
    } else {
      assert ("corpus", Expression) in Declared(op);
    }
  }

  // ---------- assertion lists ----------

  /** `first_failed_assertion` from position `k` on. */
  function FirstFailed(assertions: seq<Json>, ctx: Context, k: nat): Result<Option<nat>, string>
    requires k <= |assertions|
    decreases |assertions| - k
  {
    if k == |assertions| then Success(None)
    else
      var holds :- BoolOf(Eval(assertions[k], ctx, None), "assertion");
      if holds then FirstFailed(assertions, ctx, k + 1) else Success(Some(k))
  }

  /** The request partition of an operation fails at the same assertion, or with the same error, for every result. */
  lemma {:induction false} RequestPartitionIgnoresResult(assertions: seq<Json>, ctx: Context, other: Option<Json>, k: nat)
    requires k <= |assertions| && forall i :: 0 <= i < |assertions| ==> Clean(assertions[i])
    ensures FirstFailed(assertions, ctx, k) == FirstFailed(assertions, ctx.(result := other), k)
    decreases |assertions| - k
  {
    hide Eval, Clean;
    if k < |assertions| {
      ResultIrrelevant(assertions[k], ctx, other, None);
      RequestPartitionIgnoresResult(assertions, ctx, other, k + 1);
    }
  }

  // ---------- ranked output against the order check ----------

  predicate RealLeq(a: real, b: real) {
    a <= b
  }

  function ScoreOperands(keys: seq<Key<real>>): (r: seq<EvalResult>)
    ensures |r| == |keys|
  {
    seq(|keys|, i requires 0 <= i < |keys| => Success(Owned(Num(Float(keys[i].score)))))
  }

  function IdOperands(keys: seq<Key<real>>): (r: seq<EvalResult>)
    ensures |r| == |keys|
  {
    seq(|keys|, i requires 0 <= i < |keys| => Success(Owned(Str(keys[i].id))))
  }

  predicate Inverted(previous: Option<(real, string)>, key: Key<real>) {
    previous.Some?
    && (key.score > previous.value.0 || (key.score == previous.value.0 && IdLess(key.id, previous.value.1)))
  }

  lemma InOrderStep(keys: seq<Key<real>>, previous: Option<(real, string)>)
    requires keys != [] && !Inverted(previous, keys[0])
    ensures InOrder(ScoreOperands(keys), IdOperands(keys), previous)
         == InOrder(ScoreOperands(keys[1..]), IdOperands(keys[1..]), Some((keys[0].score, keys[0].id)))
  {
    hide IdLess;
    assert ScoreOperands(keys)[1..] == ScoreOperands(keys[1..]) && IdOperands(keys)[1..] == IdOperands(keys[1..]);
    assert NumberOf(ScoreOperands(keys)[0], "ordered score") == Success(keys[0].score);
    assert StringOf(IdOperands(keys)[0], "ordered id") == Success(keys[0].id);
  }

  /** Over scores without a negative zero, every finished ranking passes the contract's own order check. */
  lemma RankingPassesOrderCheck(offers: seq<Key<real>>, limit: nat)
    ensures var ranked := Take(Sort(ByRank(RealLeq), offers), limit);
      InOrder(ScoreOperands(ranked), IdOperands(ranked), None) == Truth(true)
  {
    hide InOrder;
    RankOrderIsTotal(RealLeq);
    var sorted := Sort(ByRank(RealLeq), offers);
    SortIsSorted(ByRank(RealLeq), offers);
    assert forall i :: 0 <= i < |Take(sorted, limit)| ==> Take(sorted, limit)[i] == sorted[i];
    SortedPassesOrderCheck(Take(sorted, limit), None);
  }

  lemma {:induction false} SortedPassesOrderCheck(keys: seq<Key<real>>, previous: Option<(real, string)>)
    requires Sorted(ByRank(RealLeq), keys)
    requires previous.Some? && keys != [] ==> RankLeq(RealLeq, Key(previous.value.0, previous.value.1), keys[0])
    ensures InOrder(ScoreOperands(keys), IdOperands(keys), previous) == Truth(true)
  {
    hide InOrder, IdLeq;
    if keys == [] {
      NothingInOrder(previous);
    } else {
      var rest := keys[1..];
      SortedTail(ByRank(RealLeq), keys);
      if rest != [] {
        assert ByRank(RealLeq)(keys[0], keys[1]);
      }
      InOrderStep(keys, previous);
      SortedPassesOrderCheck(rest, Some((keys[0].score, keys[0].id)));
    }
  }

  lemma NothingInOrder(previous: Option<(real, string)>)
    ensures InOrder(ScoreOperands([]), IdOperands([]), previous) == Truth(true)
  {
  }
}
