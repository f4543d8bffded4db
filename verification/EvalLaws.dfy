/**
  What each opcode of the refinement expressions returns, said of the values its
  operands return and of the expression's own fields.
 */
module EvalLaws {
  import opened Wrappers
  import opened Text
  import opened Json
  import opened Graph
  import opened ContractSchema
  import opened ContractEval
  import opened PointerLaws

  // ---------- expressions and what their parts return ----------

  predicate IsOp(e: Json, name: string) {
    e.Obj? && "op" in e.fields && e.fields["op"] == Str(name)
  }

  predicate Has(e: Json, name: string) {
    e.Obj? && name in e.fields
  }

  /** The expression returns the value, alone. */
  ghost predicate Returns(e: Json, ctx: Context, current: Current, v: Json) {
    var r := Eval(e, ctx, current);
    r == Success(Ref(v)) || r == Success(Owned(v)) || r == Success(Refs([v]))
  }

  /** The operand `name` returns the value, alone. */
  ghost predicate Gives(e: Json, name: string, ctx: Context, current: Current, v: Json) {
    Has(e, name) && Returns(e.fields[name], ctx, current, v)
  }

  /** So does it, and not as a list with one member. */
  ghost predicate GivesOne(e: Json, name: string, ctx: Context, current: Current, v: Json) {
    Gives(e, name, ctx, current, v) && Eval(e.fields[name], ctx, current) != Success(Refs([v]))
  }

  ghost predicate GivesTruth(e: Json, ctx: Context, current: Current, b: bool) {
    Eval(e, ctx, current) == Success(Owned(Bool(b)))
  }

  predicate IsNumber(v: Json, x: real) {
    v == Num(Float(x)) || (v.Num? && v.n.Int? && v.n.i as real == x)
  }

  // ---------- opcodes by name ----------

  lemma OpcodesNamed1(e: Json)
    ensures IsOp(e, "all") ==> OpcodeOf(e) == Some(All)
    ensures IsOp(e, "any") ==> OpcodeOf(e) == Some(Any)
    ensures IsOp(e, "array_at") ==> OpcodeOf(e) == Some(ArrayAt)
    ensures IsOp(e, "array_length") ==> OpcodeOf(e) == Some(ArrayLength)
    ensures IsOp(e, "coalesce") ==> OpcodeOf(e) == Some(Coalesce)
    ensures IsOp(e, "concat") ==> OpcodeOf(e) == Some(Concat)
  {
  }

  lemma OpcodesNamed2(e: Json)
    ensures IsOp(e, "concat") ==> OpcodeOf(e) == Some(Concat)
    ensures IsOp(e, "corpus_eq_ref") ==> OpcodeOf(e) == Some(CorpusEqRef)
    ensures IsOp(e, "eq") ==> OpcodeOf(e) == Some(Eq)
    ensures IsOp(e, "field_eq_ref") ==> OpcodeOf(e) == Some(FieldEqRef)
    ensures IsOp(e, "finite_range") ==> OpcodeOf(e) == Some(FiniteRange)
    ensures IsOp(e, "for_each") ==> OpcodeOf(e) == Some(ForEach)
  {
  }

  lemma OpcodesNamed3(e: Json)
    ensures IsOp(e, "for_each") ==> OpcodeOf(e) == Some(ForEach)
    ensures IsOp(e, "iteration_pointer") ==> OpcodeOf(e) == Some(IterationPointer)
    ensures IsOp(e, "length_eq") ==> OpcodeOf(e) == Some(LengthEq)
    ensures IsOp(e, "length_lte_ref") ==> OpcodeOf(e) == Some(LengthLteRef)
    ensures IsOp(e, "literal") ==> OpcodeOf(e) == Some(Literal)
    ensures IsOp(e, "lt") ==> OpcodeOf(e) == Some(Lt)
  {
  }

  lemma OpcodesNamed4(e: Json)
    ensures IsOp(e, "lt") ==> OpcodeOf(e) == Some(Lt)
    ensures IsOp(e, "lte") ==> OpcodeOf(e) == Some(Lte)
    ensures IsOp(e, "map_lookup") ==> OpcodeOf(e) == Some(MapLookup)
    ensures IsOp(e, "max") ==> OpcodeOf(e) == Some(MaxOf)
    ensures IsOp(e, "multiply") ==> OpcodeOf(e) == Some(Multiply)
    ensures IsOp(e, "normalize_ref") ==> OpcodeOf(e) == Some(NormalizeRef)
  {
  }

  lemma OpcodesNamed5(e: Json)
    ensures IsOp(e, "normalize_ref") ==> OpcodeOf(e) == Some(NormalizeRef)
    ensures IsOp(e, "not") ==> OpcodeOf(e) == Some(Not)
    ensures IsOp(e, "ordered_score_desc_id_asc") ==> OpcodeOf(e) == Some(Ordered)
    ensures IsOp(e, "pointer") ==> OpcodeOf(e) == Some(Pointer)
    ensures IsOp(e, "prefixed_identity") ==> OpcodeOf(e) == Some(PrefixedIdentity)
    ensures IsOp(e, "rank_is_index_plus_one") ==> OpcodeOf(e) == Some(RankIsIndex)
  {
  }

  lemma OpcodesNamed6(e: Json)
    ensures IsOp(e, "rank_is_index_plus_one") ==> OpcodeOf(e) == Some(RankIsIndex)
    ensures IsOp(e, "safe_integer_range") ==> OpcodeOf(e) == Some(SafeRange)
    ensures IsOp(e, "set_contains") ==> OpcodeOf(e) == Some(SetContains)
    ensures IsOp(e, "tuple_tags") ==> OpcodeOf(e) == Some(TupleTags)
    ensures IsOp(e, "unique_by") ==> OpcodeOf(e) == Some(UniqueBy)
  {
  }

  /** The handler of each opcode, by the name that expressions give it. */
  lemma OpcodesByName(e: Json)
    ensures IsOp(e, "all") ==> OpcodeOf(e) == Some(All)
    ensures IsOp(e, "any") ==> OpcodeOf(e) == Some(Any)
    ensures IsOp(e, "array_at") ==> OpcodeOf(e) == Some(ArrayAt)
    ensures IsOp(e, "array_length") ==> OpcodeOf(e) == Some(ArrayLength)
    ensures IsOp(e, "coalesce") ==> OpcodeOf(e) == Some(Coalesce)
    ensures IsOp(e, "concat") ==> OpcodeOf(e) == Some(Concat)
    ensures IsOp(e, "corpus_eq_ref") ==> OpcodeOf(e) == Some(CorpusEqRef)
    ensures IsOp(e, "eq") ==> OpcodeOf(e) == Some(Eq)
    ensures IsOp(e, "field_eq_ref") ==> OpcodeOf(e) == Some(FieldEqRef)
    ensures IsOp(e, "finite_range") ==> OpcodeOf(e) == Some(FiniteRange)
    ensures IsOp(e, "for_each") ==> OpcodeOf(e) == Some(ForEach)
    ensures IsOp(e, "iteration_pointer") ==> OpcodeOf(e) == Some(IterationPointer)
    ensures IsOp(e, "length_eq") ==> OpcodeOf(e) == Some(LengthEq)
    ensures IsOp(e, "length_lte_ref") ==> OpcodeOf(e) == Some(LengthLteRef)
    ensures IsOp(e, "literal") ==> OpcodeOf(e) == Some(Literal)
    ensures IsOp(e, "lt") ==> OpcodeOf(e) == Some(Lt)
    ensures IsOp(e, "lte") ==> OpcodeOf(e) == Some(Lte)
    ensures IsOp(e, "map_lookup") ==> OpcodeOf(e) == Some(MapLookup)
    ensures IsOp(e, "max") ==> OpcodeOf(e) == Some(MaxOf)
    ensures IsOp(e, "multiply") ==> OpcodeOf(e) == Some(Multiply)
    ensures IsOp(e, "normalize_ref") ==> OpcodeOf(e) == Some(NormalizeRef)
    ensures IsOp(e, "not") ==> OpcodeOf(e) == Some(Not)
    ensures IsOp(e, "ordered_score_desc_id_asc") ==> OpcodeOf(e) == Some(Ordered)
    ensures IsOp(e, "pointer") ==> OpcodeOf(e) == Some(Pointer)
    ensures IsOp(e, "prefixed_identity") ==> OpcodeOf(e) == Some(PrefixedIdentity)
    ensures IsOp(e, "rank_is_index_plus_one") ==> OpcodeOf(e) == Some(RankIsIndex)
    ensures IsOp(e, "safe_integer_range") ==> OpcodeOf(e) == Some(SafeRange)
    ensures IsOp(e, "set_contains") ==> OpcodeOf(e) == Some(SetContains)
    ensures IsOp(e, "tuple_tags") ==> OpcodeOf(e) == Some(TupleTags)
    ensures IsOp(e, "unique_by") ==> OpcodeOf(e) == Some(UniqueBy)
  {
    hide OpcodeOf;
    OpcodesNamed1(e);
    OpcodesNamed2(e);
    OpcodesNamed3(e);
    OpcodesNamed4(e);
    OpcodesNamed5(e);
    OpcodesNamed6(e);
  }

  // ---------- one step of evaluation ----------

  lemma Evaluates1(e: Json, ctx: Context, current: Current)
    requires e.Obj?
    ensures OpcodeOf(e) == Some(Lt) ==>
      Eval(e, ctx, current) == CompareOp(Sub(e, "left", ctx, current), Sub(e, "right", ctx, current), OpText(e), false)
    ensures OpcodeOf(e) == Some(Lte) ==>
      Eval(e, ctx, current) == CompareOp(Sub(e, "left", ctx, current), Sub(e, "right", ctx, current), OpText(e), true)
    ensures OpcodeOf(e) == Some(Multiply) ==>
      Eval(e, ctx, current) == MultiplyOp(Sub(e, "left", ctx, current), Sub(e, "right", ctx, current))
    ensures OpcodeOf(e) == Some(Eq) ==>
      Eval(e, ctx, current) == EqualOutcomes(Sub(e, "left", ctx, current), Sub(e, "right", ctx, current))
    ensures OpcodeOf(e) == Some(FieldEqRef) ==>
      Eval(e, ctx, current) == EqualOutcomes(Sub(e, "value", ctx, current), Sub(e, "expected", ctx, current))
    ensures OpcodeOf(e) == Some(CorpusEqRef) ==>
      Eval(e, ctx, current) == EqualOutcomes(Sub(e, "corpus", ctx, current), Sub(e, "expected", ctx, current))
  {
    hide OpcodeOf, OpText, Sub, Subs, Items, Each, OverValues, HeadMessage, LengthOp, ArrayAtOp, EqualOutcomes,
      CompareOp, MultiplyOp, NotOp, NormalizeOp, MapLookupOp, SetContainsOp, RangeOp,
      SafeRangeOp, TupleTagsOp, LengthCompareOp, PrefixedOp, PointerOp, IterationOp, LiteralOp, Decide, FirstNonNull, ConcatOp,
      MaxOp, Unique, InOrder, Ranks;
  }

  lemma Evaluates2(e: Json, ctx: Context, current: Current)
    requires e.Obj?
    ensures OpcodeOf(e) == Some(Not) ==>
      Eval(e, ctx, current) == NotOp(Sub(e, "value", ctx, current))
    ensures OpcodeOf(e) == Some(ArrayLength) ==>
      Eval(e, ctx, current) == LengthOp(Sub(e, "value", ctx, current))
    ensures OpcodeOf(e) == Some(ArrayAt) ==>
      Eval(e, ctx, current) == ArrayAtOp(Sub(e, "array", ctx, current), Sub(e, "index", ctx, current))
    ensures OpcodeOf(e) == Some(LengthEq) ==>
      Eval(e, ctx, current) == LengthCompareOp(Sub(e, "actual", ctx, current), Sub(e, "expected", ctx, current), true)
    ensures OpcodeOf(e) == Some(LengthLteRef) ==>
      Eval(e, ctx, current) == LengthCompareOp(Sub(e, "actual", ctx, current), Sub(e, "limit", ctx, current), false)
    ensures OpcodeOf(e) == Some(SetContains) ==>
      Eval(e, ctx, current) == SetContainsOp(Sub(e, "set", ctx, current), Sub(e, "value", ctx, current))
  {
    hide OpcodeOf, OpText, Sub, Subs, Items, Each, OverValues, HeadMessage, LengthOp, ArrayAtOp, EqualOutcomes,
      CompareOp, MultiplyOp, NotOp, NormalizeOp, MapLookupOp, SetContainsOp, RangeOp,
      SafeRangeOp, TupleTagsOp, LengthCompareOp, PrefixedOp, PointerOp, IterationOp, LiteralOp, Decide, FirstNonNull, ConcatOp,
      MaxOp, Unique, InOrder, Ranks;
  }

  lemma Evaluates3(e: Json, ctx: Context, current: Current)
    requires e.Obj?
    ensures OpcodeOf(e) == Some(MapLookup) ==>
      Eval(e, ctx, current) == MapLookupOp(e, Sub(e, "key", ctx, current), Sub(e, "map", ctx, current))
    ensures OpcodeOf(e) == Some(FiniteRange) ==>
      Eval(e, ctx, current) == RangeOp(e, Sub(e, "value", ctx, current))
    ensures OpcodeOf(e) == Some(SafeRange) ==>
      Eval(e, ctx, current) == SafeRangeOp(e, Sub(e, "maximum", ctx, current), Sub(e, "value", ctx, current))
    ensures OpcodeOf(e) == Some(TupleTags) ==>
      Eval(e, ctx, current) == TupleTagsOp(e, Sub(e, "actual", ctx, current))
    ensures OpcodeOf(e) == Some(PrefixedIdentity) ==>
      Eval(e, ctx, current) == PrefixedOp(e, Sub(e, "identity", ctx, current), Sub(e, "value", ctx, current))
    ensures OpcodeOf(e) == Some(NormalizeRef) ==>
      Eval(e, ctx, current) == NormalizeOp(e, Sub(e, "value", ctx, current), ctx.normalizer)
  {
    hide OpcodeOf, OpText, Sub, Subs, Items, Each, OverValues, HeadMessage, LengthOp, ArrayAtOp, EqualOutcomes,
      CompareOp, MultiplyOp, NotOp, NormalizeOp, MapLookupOp, SetContainsOp, RangeOp,
      SafeRangeOp, TupleTagsOp, LengthCompareOp, PrefixedOp, PointerOp, IterationOp, LiteralOp, Decide, FirstNonNull, ConcatOp,
      MaxOp, Unique, InOrder, Ranks;
  }

  lemma EvaluatesVariadic(e: Json, ctx: Context, current: Current)
    requires e.Obj? && Subs(e, ctx, current).Success?
    ensures OpcodeOf(e) == Some(All) ==> Eval(e, ctx, current) == Decide(Subs(e, ctx, current).value, OpText(e), false)
    ensures OpcodeOf(e) == Some(Any) ==> Eval(e, ctx, current) == Decide(Subs(e, ctx, current).value, OpText(e), true)
    ensures OpcodeOf(e) == Some(Coalesce) ==> Eval(e, ctx, current) == FirstNonNull(Subs(e, ctx, current).value)
    ensures OpcodeOf(e) == Some(Concat) ==> Eval(e, ctx, current) == ConcatOp(Subs(e, ctx, current).value)
    ensures OpcodeOf(e) == Some(MaxOf) ==> Eval(e, ctx, current) == MaxOp(Subs(e, ctx, current).value)
  {
    hide OpcodeOf, OpText, Sub, Subs, Items, Each, HeadMessage, LengthOp, ArrayAtOp, EqualOutcomes, CompareOp,
      MultiplyOp, NotOp, NormalizeOp, MapLookupOp, SetContainsOp, RangeOp,
      SafeRangeOp, TupleTagsOp, LengthCompareOp, PrefixedOp, PointerOp, IterationOp, LiteralOp, Decide, FirstNonNull, ConcatOp,
      MaxOp, Unique, InOrder, Ranks;
  }

  // ---------- comparisons and arithmetic ----------

  /** An operand that returns a number counts as that number, whatever the error would be called. */
  lemma NumberGiven(e: Json, field: string, ctx: Context, current: Current, v: Json, x: real, name: string)
    requires Gives(e, field, ctx, current, v) && IsNumber(v, x)
    ensures NumberOf(Sub(e, field, ctx, current), name) == Success(x)
  {
    hide Eval;
  }

  lemma OneGiven(e: Json, field: string, ctx: Context, current: Current, v: Json, name: string)
    requires Gives(e, field, ctx, current, v)
    ensures One(Sub(e, field, ctx, current), name) == Success(v)
  {
    hide Eval;
  }

  lemma LessLaw(e: Json, ctx: Context, current: Current, left: Json, right: Json, a: real, b: real)
    requires e.Obj? && Gives(e, "left", ctx, current, left) && Gives(e, "right", ctx, current, right)
    requires IsNumber(left, a) && IsNumber(right, b)
    ensures IsOp(e, "lt") ==> GivesTruth(e, ctx, current, a < b)
    ensures IsOp(e, "lte") ==> GivesTruth(e, ctx, current, a <= b)
  {
    hide Eval, OpcodeOf, NumberOf, Sub, IsNumber, Gives, OpText;
    OpcodesNamed3(e);
    OpcodesNamed4(e);
    Evaluates1(e, ctx, current);
    NumberGiven(e, "left", ctx, current, left, a, OpText(e));
    NumberGiven(e, "right", ctx, current, right, b, OpText(e));
  }

  lemma MultiplyLaw(e: Json, ctx: Context, current: Current, left: Json, right: Json, a: real, b: real)
    requires IsOp(e, "multiply") && Gives(e, "left", ctx, current, left) && Gives(e, "right", ctx, current, right)
    requires IsNumber(left, a) && IsNumber(right, b)
    ensures exists product: real :: product == a * b && Returns(e, ctx, current, Num(Float(product)))
  {
    hide Eval, OpcodeOf, NumberOf, Sub, IsNumber, Gives, MultiplyOp;
    OpcodesNamed4(e);
    Evaluates1(e, ctx, current);
    NumberGiven(e, "left", ctx, current, left, a, "multiply");
    NumberGiven(e, "right", ctx, current, right, b, "multiply");
    var product := Product(Sub(e, "left", ctx, current), Sub(e, "right", ctx, current), a, b);
    assert Returns(e, ctx, current, Num(Float(product)));
  }

  lemma Product(left: EvalResult, right: EvalResult, a: real, b: real) returns (product: real)
    requires NumberOf(left, "multiply") == Success(a) && NumberOf(right, "multiply") == Success(b)
    ensures product == a * b && MultiplyOp(left, right) == Success(Owned(Num(Float(product))))
  {
    hide NumberOf;
    product := MultiplyOp(left, right).value.value.n.f;
  }

  /** Two operands compared as single values. */
  lemma SameValue(e: Json, first: string, second: string, ctx: Context, current: Current, a: Json, b: Json)
    requires GivesOne(e, first, ctx, current, a) && GivesOne(e, second, ctx, current, b)
    ensures EqualOutcomes(Sub(e, first, ctx, current), Sub(e, second, ctx, current)) == Success(Owned(Bool(a == b)))
  {
    hide Eval;
  }

  lemma EqualLaw(e: Json, ctx: Context, current: Current, a: Json, b: Json)
    requires e.Obj?
    ensures IsOp(e, "eq") && GivesOne(e, "left", ctx, current, a) && GivesOne(e, "right", ctx, current, b)
      ==> GivesTruth(e, ctx, current, a == b)
    ensures IsOp(e, "field_eq_ref") && GivesOne(e, "value", ctx, current, a) && GivesOne(e, "expected", ctx, current, b)
      ==> GivesTruth(e, ctx, current, a == b)
    ensures IsOp(e, "corpus_eq_ref") && GivesOne(e, "corpus", ctx, current, a) && GivesOne(e, "expected", ctx, current, b)
      ==> GivesTruth(e, ctx, current, a == b)
  {
    hide Eval, OpcodeOf, EqualOutcomes, Sub, GivesOne;
    OpcodesNamed2(e);
    Evaluates1(e, ctx, current);
    if IsOp(e, "eq") && GivesOne(e, "left", ctx, current, a) && GivesOne(e, "right", ctx, current, b) {
      SameValue(e, "left", "right", ctx, current, a, b);
    }
    if IsOp(e, "field_eq_ref") && GivesOne(e, "value", ctx, current, a) && GivesOne(e, "expected", ctx, current, b) {
      SameValue(e, "value", "expected", ctx, current, a, b);
    }
    if IsOp(e, "corpus_eq_ref") && GivesOne(e, "corpus", ctx, current, a) && GivesOne(e, "expected", ctx, current, b) {
      SameValue(e, "corpus", "expected", ctx, current, a, b);
    }
  }

  lemma NotLaw(e: Json, ctx: Context, current: Current, b: bool)
    requires IsOp(e, "not") && Gives(e, "value", ctx, current, Bool(b))
    ensures GivesTruth(e, ctx, current, !b)
  {
    hide Eval, OpcodeOf;
    OpcodesNamed5(e);
    Evaluates2(e, ctx, current);
  }

  // ---------- leaves ----------

  lemma LiteralLaw(e: Json, ctx: Context, current: Current)
    requires IsOp(e, "literal") && Has(e, "value")
    ensures Eval(e, ctx, current) == Success(Owned(e.fields["value"]))
  {
  }

  /** A pointer without a wildcard returns the one value it finds; one with a wildcard returns all of them. */
  lemma PointerLaw(e: Json, ctx: Context, current: Current, path: string, values: seq<Json>)
    requires IsOp(e, "pointer") && Has(e, "path") && e.fields["path"] == Str(path) && Has(e, "root")
    requires e.fields["root"] == Str("request") || (e.fields["root"] == Str("result") && ctx.result.Some?)
    requires Finds(if e.fields["root"] == Str("request") then ctx.request else ctx.result.value, path, values, ctx.keys)
    ensures "*" in Split(path) ==> Eval(e, ctx, current) == Success(Refs(values))
    ensures "*" !in Split(path) && values != [] ==> Eval(e, ctx, current) == Success(Ref(values[0]))
  {
    hide Walk, Split, RawSegments;
  }

  lemma IterationLaw(e: Json, ctx: Context, scope: string, item: Json, path: string, values: seq<Json>)
    requires IsOp(e, "iteration_pointer") && Has(e, "path") && e.fields["path"] == Str(path)
    requires Has(e, "scope") && e.fields["scope"] == Str(scope) && Finds(item, path, values, ctx.keys)
    ensures "*" in Split(path) ==> Eval(e, ctx, Some((scope, item))) == Success(Refs(values))
    ensures "*" !in Split(path) && values != [] ==> Eval(e, ctx, Some((scope, item))) == Success(Ref(values[0]))
  {
    hide Walk, Split, RawSegments;
  }

  // ---------- variadic opcodes ----------

  /** The operands of a variadic opcode return these values, one each. */
  ghost predicate AllGive(e: Json, ctx: Context, current: Current, values: seq<Json>) {
    && Has(e, "values") && e.fields["values"].Arr? && |e.fields["values"].items| == |values|
    && forall i :: 0 <= i < |values| ==> Returns(e.fields["values"].items[i], ctx, current, values[i])
  }

  lemma OperandsAre(e: Json, ctx: Context, current: Current, values: seq<Json>)
    requires AllGive(e, ctx, current, values)
    ensures var r := Subs(e, ctx, current);
      r.Success? && |r.value| == |values| && forall i, name :: 0 <= i < |values| ==> One(r.value[i], name) == Success(values[i])
  {
    hide Eval;
  }

  function Texts(ss: seq<string>): (r: seq<Json>)
    ensures |r| == |ss|
  {
    seq(|ss|, i requires 0 <= i < |ss| => Str(ss[i]))
  }

  function Booleans(bs: seq<bool>): (r: seq<Json>)
    ensures |r| == |bs|
  {
    seq(|bs|, i requires 0 <= i < |bs| => Bool(bs[i]))
  }

  lemma {:induction false} DecideMeans(values: seq<EvalResult>, name: string, stop: bool, bs: seq<bool>)
    requires |values| == |bs| && forall i :: 0 <= i < |values| ==> One(values[i], name) == Success(Bool(bs[i]))
    ensures Decide(values, name, stop) == Success(Owned(Bool(if stop in bs then stop else !stop)))
  {
    hide One;
    if values != [] {
      DecideMeans(values[1..], name, stop, bs[1..]);
      assert bs == [bs[0]] + bs[1..];
    }
  }

  /** `all` and `any` are quantifiers over operands that are all truth values. */
  lemma QuantifierLaw(e: Json, ctx: Context, current: Current, bs: seq<bool>)
    requires AllGive(e, ctx, current, Booleans(bs))
    ensures IsOp(e, "all") ==> GivesTruth(e, ctx, current, forall i :: 0 <= i < |bs| ==> bs[i])
    ensures IsOp(e, "any") ==> GivesTruth(e, ctx, current, exists i :: 0 <= i < |bs| && bs[i])
  {
    hide Eval, OpcodeOf, Decide, One, Subs;
    OpcodesNamed1(e);
    OperandsAre(e, ctx, current, Booleans(bs));
    EvaluatesVariadic(e, ctx, current);
    var values := Subs(e, ctx, current).value;
    if IsOp(e, "all") {
      DecideMeans(values, "all", false, bs);
      assert OpText(e) == "all";
    }
    if IsOp(e, "any") {
      DecideMeans(values, "any", true, bs);
      assert OpText(e) == "any";
    }
  }

  lemma {:induction false} LargestMeans(values: seq<EvalResult>, vs: seq<Json>, xs: seq<real>)
    requires |values| == |vs| == |xs| && forall i :: 0 <= i < |values| ==>
      One(values[i], "max") == Success(vs[i]) && IsNumber(vs[i], xs[i])
    ensures Largest(values).Success? && (Largest(values).value.None? <==> xs == [])
    ensures var top := Largest(values).value;
      top.Some? ==> top.value in xs && forall i :: 0 <= i < |xs| ==> xs[i] <= top.value
  {
    hide One;
    if values != [] {
      LargestMeans(values[1..], vs[1..], xs[1..]);
      assert xs == [xs[0]] + xs[1..];
    }
  }

  /** `max` is an upper bound that is one of its operands; without operands it is an error. */
  lemma MaxLaw(e: Json, ctx: Context, current: Current, vs: seq<Json>, xs: seq<real>)
    requires IsOp(e, "max") && AllGive(e, ctx, current, vs) && |vs| == |xs|
    requires forall i :: 0 <= i < |vs| ==> IsNumber(vs[i], xs[i])
    ensures xs == [] ==> Eval(e, ctx, current).Failure?
    ensures xs != [] ==> exists top ::
      top in xs && (forall i :: 0 <= i < |xs| ==> xs[i] <= top) && Returns(e, ctx, current, Num(Float(top)))
  {
    hide Eval, OpcodeOf, Largest, One, Subs, IsNumber;
    OpcodesNamed4(e);
    OperandsAre(e, ctx, current, vs);
    EvaluatesVariadic(e, ctx, current);
    LargestMeans(Subs(e, ctx, current).value, vs, xs);
  }

  lemma {:induction false} FirstNonNullMeans(values: seq<EvalResult>, vs: seq<Json>, k: nat)
    requires |values| == |vs| && forall i :: 0 <= i < |values| ==> One(values[i], "coalesce") == Success(vs[i])
    requires k <= |vs| && (forall i :: 0 <= i < k ==> vs[i] == Null) && (k < |vs| ==> vs[k] != Null)
    ensures FirstNonNull(values) == if k < |vs| then values[k] else Success(Owned(Null))
  {
    hide One;
    if k > 0 {
      FirstNonNullMeans(values[1..], vs[1..], k - 1);
    }
  }

  /** `coalesce` returns what its first operand that is not null returns. */
  lemma CoalesceLaw(e: Json, ctx: Context, current: Current, vs: seq<Json>, k: nat)
    requires IsOp(e, "coalesce") && AllGive(e, ctx, current, vs)
    requires k <= |vs| && (forall i :: 0 <= i < k ==> vs[i] == Null) && (k < |vs| ==> vs[k] != Null)
    ensures k < |vs| ==> Eval(e, ctx, current) == Eval(e.fields["values"].items[k], ctx, current)
    ensures k == |vs| ==> Returns(e, ctx, current, Null)
  {
    hide FirstNonNull, One, Eval, OpcodeOf;
    OpcodesNamed1(e);
    OperandsAre(e, ctx, current, vs);
    FirstNonNullMeans(Subs(e, ctx, current).value, vs, k);
    EvaluatesVariadic(e, ctx, current);
  }

  /** Strings one after another. */
  function Concatenated(ss: seq<string>): string {
    if ss == [] then "" else ss[0] + Concatenated(ss[1..])
  }

  lemma {:induction false} JoinedMeans(values: seq<EvalResult>, ss: seq<string>)
    requires |values| == |ss| && forall i :: 0 <= i < |values| ==> One(values[i], "concat") == Success(Str(ss[i]))
    ensures Joined(values) == Success(Concatenated(ss))
  {
    hide One;
    if values != [] {
      JoinedMeans(values[1..], ss[1..]);
    }
  }

  lemma ConcatLaw(e: Json, ctx: Context, current: Current, ss: seq<string>)
    requires IsOp(e, "concat") && AllGive(e, ctx, current, Texts(ss))
    ensures Returns(e, ctx, current, Str(Concatenated(ss)))
  {
    hide Eval, OpcodeOf, Joined, One, Subs, AllGive;
    OpcodesNamed1(e);
    OperandsAre(e, ctx, current, Texts(ss));
    EvaluatesVariadic(e, ctx, current);
    JoinedMeans(Subs(e, ctx, current).value, ss);
  }

  // ---------- arrays, maps and sets ----------

  lemma LengthLaw(e: Json, ctx: Context, current: Current, items: seq<Json>)
    requires IsOp(e, "array_length") && Has(e, "value")
    requires var r := Eval(e.fields["value"], ctx, current);
      r == Success(Ref(Arr(items))) || r == Success(Owned(Arr(items))) || r == Success(Refs(items))
    ensures Returns(e, ctx, current, Num(Int(|items|)))
  {
    hide Eval, OpcodeOf;
    OpcodesNamed1(e);
    Evaluates2(e, ctx, current);
  }

  lemma ArrayAtLaw(e: Json, ctx: Context, current: Current, items: seq<Json>, index: Json, n: nat)
    requires IsOp(e, "array_at") && Has(e, "array") && Eval(e.fields["array"], ctx, current) == Success(Ref(Arr(items)))
    requires Gives(e, "index", ctx, current, index) && IsNumber(index, n as real) && n <= U64_MAX
    ensures n < |items| ==> Eval(e, ctx, current) == Success(Ref(items[n]))
    ensures n >= |items| ==> Eval(e, ctx, current).Failure?
  {
    hide Eval, OpcodeOf;
    OpcodesNamed1(e);
    Evaluates2(e, ctx, current);
    assert (n as real).Floor == n;
  }

  /** Both sides of a length check. */
  lemma LengthCheckLaw(e: Json, ctx: Context, current: Current, items: seq<Json>, bound: Json, x: real)
    requires e.Obj? && Gives(e, "actual", ctx, current, Arr(items)) && IsNumber(bound, x)
    ensures IsOp(e, "length_eq") && Gives(e, "expected", ctx, current, bound) ==> GivesTruth(e, ctx, current, |items| as real == x)
    ensures IsOp(e, "length_lte_ref") && Gives(e, "limit", ctx, current, bound) ==>
      GivesTruth(e, ctx, current, |items| as real <= x)
  {
    hide Eval, OpcodeOf, NumberOf, One, Sub, IsNumber, Gives;
    OpcodesNamed3(e);
    Evaluates2(e, ctx, current);
    OneGiven(e, "actual", ctx, current, Arr(items), "length assertion");
    if IsOp(e, "length_eq") && Gives(e, "expected", ctx, current, bound) {
      NumberGiven(e, "expected", ctx, current, bound, x, "length assertion expected");
      LengthsCompare(Sub(e, "actual", ctx, current), Sub(e, "expected", ctx, current), items, x);
    }
    if IsOp(e, "length_lte_ref") && Gives(e, "limit", ctx, current, bound) {
      NumberGiven(e, "limit", ctx, current, bound, x, "length assertion expected");
      LengthsCompare(Sub(e, "actual", ctx, current), Sub(e, "limit", ctx, current), items, x);
    }
  }

  lemma LengthsCompare(actual: EvalResult, bound: EvalResult, items: seq<Json>, x: real)
    requires One(actual, "length assertion") == Success(Arr(items)) && NumberOf(bound, "length assertion expected") == Success(x)
    ensures LengthCompareOp(actual, bound, true) == Success(Owned(Bool(|items| as real == x)))
    ensures LengthCompareOp(actual, bound, false) == Success(Owned(Bool(|items| as real <= x)))
  {
  }

  lemma {:induction false} HoldsMeans(values: seq<Json>, v: EvalValue)
    requires !v.Refs?
    ensures Holds(values, v) == Success(Owned(Bool(v.value in values)))
  {
    if values != [] {
      HoldsMeans(values[1..], v);
      assert values == [values[0]] + values[1..];
    }
  }

  lemma SetContainsLaw(e: Json, ctx: Context, current: Current, items: seq<Json>, v: Json)
    requires IsOp(e, "set_contains") && Has(e, "set") && Eval(e.fields["set"], ctx, current) == Success(Ref(Arr(items)))
    requires GivesOne(e, "value", ctx, current, v)
    ensures GivesTruth(e, ctx, current, exists i :: 0 <= i < |items| && items[i] == v)
  {
    hide Eval, OpcodeOf, Holds;
    OpcodesNamed6(e);
    Evaluates2(e, ctx, current);
    HoldsMeans(items, Ref(v));
    HoldsMeans(items, Owned(v));
  }

  /** Entry `i` has the key under the key field. */
  predicate Matches(entry: Json, keyField: string, key: Json) {
    entry.Obj? && keyField in entry.fields && entry.fields[keyField] == key
  }

  lemma {:induction false} LookupMeans(entries: seq<Json>, key: EvalValue, keyField: string, valueField: string, i: nat)
    requires !key.Refs? && i <= |entries| && forall j :: 0 <= j < |entries| ==> entries[j].Obj?
    requires forall j :: 0 <= j < i ==> !Matches(entries[j], keyField, key.value)
    requires i < |entries| ==> Matches(entries[i], keyField, key.value) && valueField in entries[i].fields
    ensures Lookup(entries, key, keyField, valueField)
         == if i < |entries| then Success(Ref(entries[i].fields[valueField])) else Success(Owned(Null))
  {
    if i > 0 {
      LookupMeans(entries[1..], key, keyField, valueField, i - 1);
    }
  }

  /** `map_lookup` returns the value field of the first entry with the key, or null when there is none. */
  lemma MapLookupLaw(e: Json, ctx: Context, current: Current, entries: seq<Json>, key: Json, keyField: string, valueField: string,
                     i: nat)
    requires IsOp(e, "map_lookup") && Has(e, "map") && Eval(e.fields["map"], ctx, current) == Success(Ref(Arr(entries)))
    requires GivesOne(e, "key", ctx, current, key) && Has(e, "keyField") && e.fields["keyField"] == Str(keyField)
    requires Has(e, "valueField") && e.fields["valueField"] == Str(valueField)
    requires i <= |entries| && forall j :: 0 <= j < |entries| ==> entries[j].Obj?
    requires forall j :: 0 <= j < i ==> !Matches(entries[j], keyField, key)
    requires i < |entries| ==> Matches(entries[i], keyField, key) && valueField in entries[i].fields
    ensures Eval(e, ctx, current) == if i < |entries| then Success(Ref(entries[i].fields[valueField])) else Success(Owned(Null))
  {
    hide Eval, OpcodeOf, Lookup, Matches;
    OpcodesNamed4(e);
    Evaluates3(e, ctx, current);
    LookupMeans(entries, Ref(key), keyField, valueField, i);
    LookupMeans(entries, Owned(key), keyField, valueField, i);
  }

  // ---------- ranges and texts ----------

  /** The operand returns these values, as one value or as a list. */
  ghost predicate GivesList(e: Json, name: string, ctx: Context, current: Current, values: seq<Json>) {
    Has(e, name)
    && var r := Eval(e.fields[name], ctx, current);
    r == Success(Refs(values)) || (|values| == 1 && (r == Success(Ref(values[0])) || r == Success(Owned(values[0]))))
  }

  lemma ListGiven(e: Json, field: string, ctx: Context, current: Current, values: seq<Json>)
    requires GivesList(e, field, ctx, current, values)
    ensures var r := Sub(e, field, ctx, current); r.Success? && RefsOf(r.value) == values
  {
    hide Eval;
    if |values| == 1 {
      assert values == [values[0]];
    }
  }

  /** A number between the bounds. */
  ghost predicate NumberWithin(v: Json, low: real, high: real) {
    exists x :: IsNumber(v, x) && low <= x <= high
  }

  lemma RangeLaw(e: Json, ctx: Context, current: Current, values: seq<Json>, low: real, high: real)
    requires IsOp(e, "finite_range") && GivesList(e, "value", ctx, current, values)
    requires Has(e, "minimum") && IsNumber(e.fields["minimum"], low) && Has(e, "maximum") && IsNumber(e.fields["maximum"], high)
    ensures GivesTruth(e, ctx, current, forall i :: 0 <= i < |values| ==> NumberWithin(values[i], low, high))
  {
    hide Eval, OpcodeOf, Sub, GivesList, RefsOf, NumberWithin, IsNumber, RangeOp;
    OpcodesNamed2(e);
    Evaluates3(e, ctx, current);
    ListGiven(e, "value", ctx, current, values);
    RangesCompare(e, Sub(e, "value", ctx, current), values, low, high);
  }

  lemma RangesCompare(e: Json, v: EvalResult, values: seq<Json>, low: real, high: real)
    requires v.Success? && RefsOf(v.value) == values
    requires Has(e, "minimum") && IsNumber(e.fields["minimum"], low) && Has(e, "maximum") && IsNumber(e.fields["maximum"], high)
    ensures RangeOp(e, v) == Success(Owned(Bool(forall i :: 0 <= i < |values| ==> NumberWithin(values[i], low, high))))
  {
    hide RefsOf;
    assert NumberField(e, "minimum", "finite_range minimum is not a number") == Success(low);
    assert NumberField(e, "maximum", "finite_range maximum is not a number") == Success(high);
    hide NumberField;
    assert v.Extract() == v.value;
    forall i | 0 <= i < |values|
      ensures NumberWithin(values[i], low, high) <==> RealOf(values[i]).Some? && low <= RealOf(values[i]).value <= high
    {
      if RealOf(values[i]).Some? {
        assert IsNumber(values[i], RealOf(values[i]).value);
      }
    }
  }

  /** A safe integer between the bounds. */
  ghost predicate SafeWithin(v: Json, low: real, high: real) {
    exists n: nat :: v == Num(Int(n)) && low <= n as real <= high && n <= 9_007_199_254_740_991
  }

  lemma SafeRangeLaw(e: Json, ctx: Context, current: Current, values: seq<Json>, low: real, maximum: Json, high: real)
    requires IsOp(e, "safe_integer_range") && GivesList(e, "value", ctx, current, values)
    requires Has(e, "minimum") && IsNumber(e.fields["minimum"], low)
    requires Gives(e, "maximum", ctx, current, maximum) && IsNumber(maximum, high)
    ensures GivesTruth(e, ctx, current, forall i :: 0 <= i < |values| ==> SafeWithin(values[i], low, high))
  {
    hide Eval, OpcodeOf, Sub, GivesList, RefsOf, Gives, NumberOf, SafeWithin;
    OpcodesNamed6(e);
    Evaluates3(e, ctx, current);
    ListGiven(e, "value", ctx, current, values);
    NumberGiven(e, "maximum", ctx, current, maximum, high, "safe_integer_range maximum");
    SafeRangesCompare(e, Sub(e, "maximum", ctx, current), Sub(e, "value", ctx, current), values, low, high);
  }

  lemma SafeRangesCompare(e: Json, maximum: EvalResult, v: EvalResult, values: seq<Json>, low: real, high: real)
    requires v.Success? && RefsOf(v.value) == values && NumberOf(maximum, "safe_integer_range maximum") == Success(high)
    requires Has(e, "minimum") && IsNumber(e.fields["minimum"], low)
    ensures SafeRangeOp(e, maximum, v) == Success(Owned(Bool(forall i :: 0 <= i < |values| ==> SafeWithin(values[i], low, high))))
  {
    hide RefsOf, NumberOf;
    assert v.Extract() == v.value;
    forall i | 0 <= i < |values|
      ensures var x := CountOf(values[i]);
        SafeWithin(values[i], low, high) <==> x.Some? && low <= x.value as real <= high && x.value <= JSON_SAFE_INTEGER_MAX
    {
      if CountOf(values[i]).Some? {
        assert values[i] == Num(Int(CountOf(values[i]).value));
      }
    }
  }

  lemma TupleTagsLaw(e: Json, ctx: Context, current: Current, items: seq<Json>, tags: seq<string>, field: string)
    requires IsOp(e, "tuple_tags") && Gives(e, "actual", ctx, current, Arr(items))
    requires Has(e, "expected") && e.fields["expected"] == Arr(Texts(tags))
    requires Has(e, "field") && e.fields["field"] == Str(field)
    ensures GivesTruth(e, ctx, current, |items| == |tags| && forall i :: 0 <= i < |items| ==>
      items[i].Obj? && field in items[i].fields && items[i].fields[field] == Str(tags[i]))
  {
    hide Eval, OpcodeOf, Sub, Gives, One;
    OpcodesNamed6(e);
    Evaluates3(e, ctx, current);
    OneGiven(e, "actual", ctx, current, Arr(items), "tuple_tags");
    TagsCompare(e, Sub(e, "actual", ctx, current), items, tags, field);
  }

  lemma TagsCompare(e: Json, actual: EvalResult, items: seq<Json>, tags: seq<string>, field: string)
    requires One(actual, "tuple_tags") == Success(Arr(items)) && Has(e, "expected") && e.fields["expected"] == Arr(Texts(tags))
    requires Has(e, "field") && e.fields["field"] == Str(field)
    ensures TupleTagsOp(e, actual) == Success(Owned(Bool(|items| == |tags| && forall i :: 0 <= i < |items| ==>
      items[i].Obj? && field in items[i].fields && items[i].fields[field] == Str(tags[i]))))
  {
    hide One;
    assert |items| == |tags| ==> forall i :: 0 <= i < |items| ==>
      (Get(items[i], field) == Some(Texts(tags)[i])
       <==> items[i].Obj? && field in items[i].fields && items[i].fields[field] == Str(tags[i]));
  }

  lemma PrefixedLaw(e: Json, ctx: Context, current: Current, identity: string, prefix: string, value: string)
    requires IsOp(e, "prefixed_identity") && Gives(e, "identity", ctx, current, Str(identity))
      && Gives(e, "value", ctx, current, Str(value))
    requires Has(e, "prefix") && e.fields["prefix"] == Str(prefix)
    ensures GivesTruth(e, ctx, current, value == prefix + identity)
  {
    hide Eval, OpcodeOf;
    OpcodesNamed5(e);
    Evaluates3(e, ctx, current);
  }

  lemma NormalizeLaw(e: Json, ctx: Context, current: Current, dependency: string, value: string)
    requires IsOp(e, "normalize_ref") && Gives(e, "value", ctx, current, Str(value))
    requires Has(e, "dependency") && e.fields["dependency"] == Str(dependency)
    ensures var normalized := ctx.normalizer(dependency, value);
      if normalized.Some? then Returns(e, ctx, current, Str(normalized.value)) else Eval(e, ctx, current).Failure?
  {
    hide Eval, OpcodeOf;
    OpcodesNamed4(e);
    Evaluates3(e, ctx, current);
  }

  // ---------- scoped opcodes ----------

  /** The collection, the scope's name, and what operand `field` returns for each item in that scope. */
  ghost predicate EachGives(e: Json, field: string, ctx: Context, current: Current, items: seq<Json>, values: seq<Json>) {
    && Gives(e, "collection", ctx, current, Arr(items)) && Has(e, "scope") && e.fields["scope"].Str?
    && Has(e, field) && |values| == |items|
    && forall i :: 0 <= i < |items| ==> Returns(e.fields[field], ctx, Some((e.fields["scope"].s, items[i])), values[i])
  }

  lemma ItemsAre(e: Json, field: string, name: string, ctx: Context, current: Current, items: seq<Json>, values: seq<Json>)
    requires EachGives(e, field, ctx, current, items, values)
    ensures Items(e, name, ctx, current) == Success(items)
    ensures var r := Each(e, field, items, ctx);
      r.Success? && |r.value| == |values| && forall i, n :: 0 <= i < |values| ==> One(r.value[i], n) == Success(values[i])
  {
    hide Eval;
  }

  /** `for_each` is a quantifier over the items of its collection. */
  lemma ForEachLaw(e: Json, ctx: Context, current: Current, items: seq<Json>, bs: seq<bool>)
    requires IsOp(e, "for_each") && EachGives(e, "predicate", ctx, current, items, Booleans(bs))
    ensures GivesTruth(e, ctx, current, forall i :: 0 <= i < |bs| ==> bs[i])
  {
    hide Decide, One, Items, Each, EachGives;
    ItemsAre(e, "predicate", "for_each", ctx, current, items, Booleans(bs));
    DecideMeans(Each(e, "predicate", items, ctx).value, "for_each predicate", false, bs);
  }

  lemma {:induction false} RanksMean(ranks: seq<EvalResult>, vs: seq<Json>, index: nat)
    requires |ranks| == |vs| && index + |vs| <= U64_MAX && forall i :: 0 <= i < |vs| ==> One(ranks[i], "rank") == Success(vs[i])
    ensures Ranks(ranks, index) == Success(Owned(Bool(forall i :: 0 <= i < |vs| ==> vs[i] == Num(Int(index + i + 1)))))
  {
    hide One;
    if ranks != [] {
      RanksMean(ranks[1..], vs[1..], index + 1);
      assert vs[0] == Num(Int(index + 0 + 1)) <==> CountOf(vs[0]) == Some(index + 1);
      assert (forall i :: 0 <= i < |vs[1..]| ==> vs[1..][i] == Num(Int(index + 1 + i + 1)))
        <==> forall i :: 1 <= i < |vs| ==> vs[i] == Num(Int(index + i + 1)) by {
        if forall i :: 0 <= i < |vs[1..]| ==> vs[1..][i] == Num(Int(index + 1 + i + 1)) {
          forall i | 1 <= i < |vs| ensures vs[i] == Num(Int(index + i + 1)) {
            assert vs[1..][i - 1] == Num(Int(index + 1 + (i - 1) + 1));
          }
        }
      }
    }
  }

  /** The ranks of the items are 1, 2, 3, ... */
  lemma RankLaw(e: Json, ctx: Context, current: Current, items: seq<Json>, vs: seq<Json>)
    requires IsOp(e, "rank_is_index_plus_one") && EachGives(e, "rank", ctx, current, items, vs) && |items| <= U64_MAX
    ensures GivesTruth(e, ctx, current, forall i :: 0 <= i < |vs| ==> vs[i] == Num(Int(i + 1)))
  {
    hide Ranks, One, Items, Each, EachGives;
    ItemsAre(e, "rank", "rank", ctx, current, items, vs);
    RanksMean(Each(e, "rank", items, ctx).value, vs, 0);
    assert (forall i :: 0 <= i < |vs| ==> vs[i] == Num(Int(0 + i + 1))) <==> forall i :: 0 <= i < |vs| ==> vs[i] == Num(Int(i + 1));
  }

  ghost predicate Scalars(keys: seq<EvalResult>, vs: seq<Json>) {
    |keys| == |vs| && forall i :: 0 <= i < |vs| ==> keys[i] == Success(Ref(vs[i])) || keys[i] == Success(Owned(vs[i]))
  }

  lemma {:induction false} UniqueMeans(keys: seq<EvalResult>, seen: seq<EvalValue>, vs: seq<Json>)
    requires Scalars(keys, vs) && forall i :: 0 <= i < |seen| ==> !seen[i].Refs?
    ensures Unique(keys, seen) == Success(Owned(Bool(
      (forall i, j :: 0 <= i < j < |vs| ==> vs[i] != vs[j])
      && forall i, j :: 0 <= i < |seen| && 0 <= j < |vs| ==> seen[i].value != vs[j])))
    decreases |keys|
  {
    if keys != [] {
      var key := keys[0].value;
      var rest, more := vs[1..], seen + [key];
      if exists i :: 0 <= i < |seen| && Equal(seen[i], key) == Success(true) {
        var i :| 0 <= i < |seen| && Equal(seen[i], key) == Success(true);
        assert seen[i].value == vs[0];
      } else {
        UniqueMeans(keys[1..], more, rest);
        UniqueSplits(seen, key, vs);
      }
    }
  }

  /** The first key is new, and the others differ from it and from what was seen. */
  lemma UniqueSplits(seen: seq<EvalValue>, key: EvalValue, vs: seq<Json>)
    requires vs != [] && !key.Refs? && key.value == vs[0] && forall i :: 0 <= i < |seen| ==>
      !seen[i].Refs? && seen[i].value != vs[0]
    ensures var rest, more := vs[1..], seen + [key];
      && ((forall i, j :: 0 <= i < j < |vs| ==> vs[i] != vs[j])
          && (forall i, j :: 0 <= i < |seen| && 0 <= j < |vs| ==> seen[i].value != vs[j])
          <==> (forall i, j :: 0 <= i < j < |rest| ==> rest[i] != rest[j])
               && (forall i, j :: 0 <= i < |more| && 0 <= j < |rest| ==> !more[i].Refs? && more[i].value != rest[j]))
  {
    var rest, more := vs[1..], seen + [key];
    if (forall i, j :: 0 <= i < j < |rest| ==> rest[i] != rest[j])
       && (forall i, j :: 0 <= i < |more| && 0 <= j < |rest| ==> !more[i].Refs? && more[i].value != rest[j]) {
      forall i, j | 0 <= i < j < |vs| ensures vs[i] != vs[j] {
        if i == 0 {
          assert more[|seen|].value != rest[j - 1];
        } else {
          assert rest[i - 1] != rest[j - 1];
        }
      }
      forall i, j | 0 <= i < |seen| && 0 <= j < |vs| ensures seen[i].value != vs[j] {
        if j > 0 {
          assert more[i].value != rest[j - 1];
        }
      }
    }
  }

  /** `unique_by` holds exactly when the keys are pairwise different. */
  lemma UniqueLaw(e: Json, ctx: Context, current: Current, items: seq<Json>, vs: seq<Json>)
    requires IsOp(e, "unique_by") && EachGives(e, "key", ctx, current, items, vs)
    requires forall i :: 0 <= i < |items| ==>
      Eval(e.fields["key"], ctx, Some((e.fields["scope"].s, items[i]))) != Success(Refs([vs[i]]))
    ensures GivesTruth(e, ctx, current, forall i, j :: 0 <= i < j < |vs| ==> vs[i] != vs[j])
  {
    ItemsAre(e, "key", "unique_by", ctx, current, items, vs);
    KeysAreScalars(e, ctx, current, items, vs);
    UniqueMeans(Each(e, "key", items, ctx).value, [], vs);
    hide Unique, One, Items, Each, EachGives, Scalars;
    UniqueUnfolds(e, ctx, current, items);
  }

  lemma UniqueUnfolds(e: Json, ctx: Context, current: Current, items: seq<Json>)
    requires IsOp(e, "unique_by") && Items(e, "unique_by", ctx, current) == Success(items) && Each(e, "key", items, ctx).Success?
    ensures Eval(e, ctx, current) == Unique(Each(e, "key", items, ctx).value, [])
  {
    hide Unique, Items, Each;
  }

  lemma KeysAreScalars(e: Json, ctx: Context, current: Current, items: seq<Json>, vs: seq<Json>)
    requires EachGives(e, "key", ctx, current, items, vs)
    requires forall i :: 0 <= i < |items| ==>
      Eval(e.fields["key"], ctx, Some((e.fields["scope"].s, items[i]))) != Success(Refs([vs[i]]))
    ensures Each(e, "key", items, ctx).Success? && Scalars(Each(e, "key", items, ctx).value, vs)
  {
    hide Eval;
  }

  // ---------- the order check ----------

  /** Position `i` and the next: the score falls, or stays and the id's units do not go back. */
  ghost predicate Falls(xs: seq<real>, ids: seq<string>, i: nat)
    requires i + 1 < |xs| == |ids|
  {
    xs[i + 1] < xs[i] || (xs[i + 1] == xs[i] && !UnitsBefore(ids[i + 1], ids[i]))
  }

  ghost predicate AllFall(xs: seq<real>, ids: seq<string>)
    requires |xs| == |ids|
  {
    forall i :: 0 <= i < |xs| - 1 ==> Falls(xs, ids, i)
  }

  lemma IdLessByUnits(a: string, b: string)
    ensures IdLess(a, b) <==> UnitsBefore(a, b)
  {
    IdOrderByUnits(a, b);
    IdOrderByUnits(b, a);
    IdOrderIsTotal();
    assert IdLeq(a, b) || IdLeq(b, a);
  }

  lemma {:induction false} InOrderMeans(scores: seq<EvalResult>, names: seq<EvalResult>, xs: seq<real>, ids: seq<string>,
                                        previous: Option<(real, string)>)
    requires |scores| == |names| == |xs| == |ids|
    requires forall i :: 0 <= i < |xs| ==>
      NumberOf(scores[i], "ordered score") == Success(xs[i]) && StringOf(names[i], "ordered id") == Success(ids[i])
    ensures previous.None? ==> InOrder(scores, names, previous) == Success(Owned(Bool(AllFall(xs, ids))))
    ensures previous.Some? ==>
      InOrder(scores, names, previous) == Success(Owned(Bool(AllFall([previous.value.0] + xs, [previous.value.1] + ids))))
    decreases |xs|
  {
    hide NumberOf, StringOf;
    if xs == [] {
    } else {
      var x, id := xs[0], ids[0];
      assert [x] + xs[1..] == xs && [id] + ids[1..] == ids;
      InOrderMeans(scores[1..], names[1..], xs[1..], ids[1..], Some((x, id)));
      if previous.Some? {
        IdLessByUnits(id, previous.value.1);
        FallsFirst(previous.value.0, previous.value.1, xs, ids);
      }
    }
  }

  lemma FallsFirst(x: real, id: string, xs: seq<real>, ids: seq<string>)
    requires |xs| == |ids| && xs != []
    ensures AllFall([x] + xs, [id] + ids)
      <==> (xs[0] < x || (xs[0] == x && !UnitsBefore(ids[0], id))) && AllFall(xs, ids)
  {
    var ys, names := [x] + xs, [id] + ids;
    assert Falls(ys, names, 0) <==> xs[0] < x || (xs[0] == x && !UnitsBefore(ids[0], id));
    forall i | 0 <= i < |xs| - 1 ensures Falls(ys, names, i + 1) <==> Falls(xs, ids, i) {
    }
    if AllFall(ys, names) {
      forall i | 0 <= i < |xs| - 1 ensures Falls(xs, ids, i) {
        assert Falls(ys, names, i + 1);
      }
    }
    if Falls(ys, names, 0) && AllFall(xs, ids) {
      forall i | 0 <= i < |ys| - 1 ensures Falls(ys, names, i) {
        if i > 0 {
          assert Falls(xs, ids, i - 1);
        }
      }
    }
  }

  /** The order check holds exactly when every score falls, or stays while the ids go forward. */
  lemma OrderedLaw(e: Json, ctx: Context, current: Current, items: seq<Json>, scores: seq<Json>, xs: seq<real>, ids: seq<string>)
    requires IsOp(e, "ordered_score_desc_id_asc") && |scores| == |xs| == |ids| == |items|
    requires EachGives(e, "score", ctx, current, items, scores) && forall i :: 0 <= i < |xs| ==> IsNumber(scores[i], xs[i])
    requires EachGives(e, "id", ctx, current, items, Texts(ids))
    ensures GivesTruth(e, ctx, current, AllFall(xs, ids))
  {
    hide Eval, OpcodeOf, InOrder, One, Items, Each, EachGives, AllFall;
    OpcodesNamed5(e);
    ItemsAre(e, "score", "ordered", ctx, current, items, scores);
    ItemsAre(e, "id", "ordered", ctx, current, items, Texts(ids));
    OrderedUnfolds(e, ctx, current, items);
    InOrderMeans(Each(e, "score", items, ctx).value, Each(e, "id", items, ctx).value, xs, ids, None);
  }

  lemma OrderedUnfolds(e: Json, ctx: Context, current: Current, items: seq<Json>)
    requires e.Obj? && OpcodeOf(e) == Some(Ordered) && Items(e, "ordered", ctx, current) == Success(items)
    requires Each(e, "score", items, ctx).Success? && Each(e, "id", items, ctx).Success?
    ensures Eval(e, ctx, current) == InOrder(Each(e, "score", items, ctx).value, Each(e, "id", items, ctx).value, None)
  {
    hide InOrder, Items, Each, OpcodeOf;
  }

  // ---------- result pointers ----------

  /** Some part of the expression is a pointer into the result. */
  ghost predicate HasResultPointer(e: Json)
    decreases e
  {
    match e
    case Obj(fields) =>
      (IsOp(e, "pointer") && Has(e, "root") && fields["root"] == Str("result"))
      || exists f :: f in fields && HasResultPointer(fields[f])
    case Arr(items) => exists i :: 0 <= i < |items| && HasResultPointer(items[i])
    case _ => false
  }

  /** The syntactic check finds only pointers that are there. */
  lemma {:induction false} FoundPointerIsThere(e: Json)
    requires ContainsResult(e) == Some(true)
    ensures HasResultPointer(e)
    decreases e, 2, 0
  {
    hide Declared;
    if !(OpcodeOf(e) == Some(Pointer) && GetStr(e, "root") == Some("result")) {
      FoundInFields(e, Declared(OpcodeOf(e).value), 0);
    } else {
      PointerIsNamed(e);
    }
  }

  lemma PointerIsNamed(e: Json)
    requires OpcodeOf(e) == Some(Pointer)
    ensures IsOp(e, "pointer")
  {
  }

  lemma {:induction false} FoundInFields(e: Json, declared: seq<(string, Marker)>, k: nat)
    requires e.Obj? && k <= |declared| && InFields(e, declared, k) == Some(true)
    ensures HasResultPointer(e)
    decreases e, 1, |declared| - k
  {
    hide ContainsResult, InItems;
    var field := declared[k].0;
    if declared[k].1 == Expression && field in e.fields && ContainsResult(e.fields[field]) == Some(true) {
      FoundPointerIsThere(e.fields[field]);
    } else if declared[k].1 == ExpressionArray && field in e.fields && e.fields[field].Arr?
      && InItems(e.fields[field], 0) == Some(true) {
      FoundInItems(e.fields[field], 0);
    } else {
      FoundInFields(e, declared, k + 1);
    }
  }

  lemma {:induction false} FoundInItems(v: Json, k: nat)
    requires v.Arr? && k <= |v.items| && InItems(v, k) == Some(true)
    ensures HasResultPointer(v)
    decreases v, 1, |v.items| - k
  {
    hide ContainsResult;
    if ContainsResult(v.items[k]) == Some(true) {
      FoundPointerIsThere(v.items[k]);
    } else {
      FoundInItems(v, k + 1);
    }
  }
}
