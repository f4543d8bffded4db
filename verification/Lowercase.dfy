/**
  Contextual lowercase over tables that are passed in: range lookup, the two-sided
  Final_Sigma scan (section 3.13 of the Unicode Standard, with case-ignorable
  scalars skipped), and the loop that stops at a byte cap.
 */
module Lowercase {
  import opened Wrappers
  import opened Text

  type Range = (int, int)

  /** Inclusive ranges in increasing order without overlap. */
  predicate SortedRanges(ranges: seq<Range>) {
    && (forall i :: 0 <= i < |ranges| ==> ranges[i].0 <= ranges[i].1)
    && (forall i, j :: 0 <= i < j < |ranges| ==> ranges[i].1 < ranges[j].0)
  }

  predicate InSome(value: int, ranges: seq<Range>) {
    exists i :: 0 <= i < |ranges| && ranges[i].0 <= value <= ranges[i].1
  }

  /** The binary search between `low` and `high`. */
  function SearchRanges(value: int, ranges: seq<Range>, low: nat, high: nat): (found: bool)
    requires low <= high <= |ranges|
    ensures SortedRanges(ranges)
            && (forall i :: 0 <= i < |ranges| && ranges[i].0 <= value <= ranges[i].1 ==> low <= i < high)
            ==> (found <==> InSome(value, ranges))
    decreases high - low
  {
    if low == high then false
    else
      var middle := (low + high) / 2;
      if value < ranges[middle].0 then SearchRanges(value, ranges, low, middle)
      else if value > ranges[middle].1 then SearchRanges(value, ranges, middle + 1, high)
      else true
  }

  /** `in_ranges`. */
  function InRanges(value: int, ranges: seq<Range>): (found: bool)
    ensures SortedRanges(ranges) ==> (found <==> InSome(value, ranges))
  {
    SearchRanges(value, ranges, 0, |ranges|)
  }

  type Mapping = (char, string)

  predicate SortedMappings(mappings: seq<Mapping>) {
    forall i, j :: 0 <= i < j < |mappings| ==> mappings[i].0 < mappings[j].0
  }

  /** The binary search in the mapping table: a position that holds the scalar, or the table's length. */
  function SearchMapping(c: char, mappings: seq<Mapping>, low: nat, high: nat): (at: nat)
    requires low <= high <= |mappings|
    ensures at < |mappings| ==> mappings[at].0 == c
    ensures SortedMappings(mappings) && (forall i :: 0 <= i < |mappings| && mappings[i].0 == c ==> low <= i < high)
            ==> (at < |mappings| <==> exists i :: 0 <= i < |mappings| && mappings[i].0 == c)
    decreases high - low
  {
    if low == high then |mappings|
    else
      var middle := (low + high) / 2;
      if c < mappings[middle].0 then SearchMapping(c, mappings, low, middle)
      else if mappings[middle].0 < c then SearchMapping(c, mappings, middle + 1, high)
      else middle
  }

  datatype Tables = Tables(ignorable: seq<Range>, cased: seq<Range>, mappings: seq<Mapping>)

  predicate GoodTables(t: Tables) {
    SortedRanges(t.ignorable) && SortedRanges(t.cased) && SortedMappings(t.mappings)
  }

  // ---------- the declarative specification ----------

  predicate Ignorable(t: Tables, c: char) {
    InSome(c as int, t.ignorable)
  }

  predicate Cased(t: Tables, c: char) {
    InSome(c as int, t.cased)
  }

  /** `b` is the nearest scalar before `i` that is not case-ignorable. */
  predicate NearestBefore(t: Tables, s: string, i: nat, b: nat)
    requires i <= |s|
  {
    b < i && !Ignorable(t, s[b]) && forall k :: b < k < i ==> Ignorable(t, s[k])
  }

  /** `a` is the nearest scalar after `i` that is not case-ignorable. */
  predicate NearestAfter(t: Tables, s: string, i: nat, a: nat)
    requires i < |s|
  {
    i < a < |s| && !Ignorable(t, s[a]) && forall k :: i < k < a ==> Ignorable(t, s[k])
  }

  ghost predicate FinalSigma(t: Tables, s: string, i: nat)
    requires i < |s|
  {
    && (exists b: nat :: NearestBefore(t, s, i, b) && Cased(t, s[b]))
    && (forall a: nat :: NearestAfter(t, s, i, a) ==> !Cased(t, s[a]))
  }

  const SIGMA: char := 0x03A3 as char
  const FINAL_SIGMA: char := 0x03C2 as char

  /** What the table says about a scalar on its own. */
  ghost function Simple(t: Tables, c: char): string {
    if i :| 0 <= i < |t.mappings| && t.mappings[i].0 == c then t.mappings[i].1 else [c]
  }

  ghost function MappedAt(t: Tables, s: string, i: nat): string
    requires i < |s|
  {
    if s[i] == SIGMA && FinalSigma(t, s, i) then [FINAL_SIGMA] else Simple(t, s[i])
  }

  /** The lowercase of the first `k` scalars, each mapped in the context of the whole string. */
  ghost function LowerTo(t: Tables, s: string, k: nat): string
    requires k <= |s|
  {
    if k == 0 then "" else LowerTo(t, s, k - 1) + MappedAt(t, s, k - 1)
  }

  ghost function Lower(t: Tables, s: string): string {
    LowerTo(t, s, |s|)
  }

  // ---------- the checkpoint ----------

  /** The caller's checkpoint: the k-th call answers `gate(k)`. */
  class Checkpoint {
    const gate: nat -> bool
    var calls: nat

    constructor (gate: nat -> bool)
      ensures this.gate == gate && calls == 0
    {
      this.gate, calls := gate, 0;
    }

    ghost predicate Stopped()
      reads this
    {
      calls > 0 && !gate(calls - 1)
    }

    method Call() returns (ok: bool)
      modifies this
      ensures calls == old(calls) + 1 && ok == gate(old(calls))
    {
      ok := gate(calls);
      calls := calls + 1;
    }
  }

  // ---------- the scan ----------

  /** `is_final_sigma_checked`; nothing when a checkpoint stopped it. */
  method IsFinalSigma(t: Tables, s: string, i: nat, checkpoint: Checkpoint) returns (r: Option<bool>)
    requires GoodTables(t) && i < |s|
    modifies checkpoint
    ensures r.Some? ==> (r.value <==> FinalSigma(t, s, i))
    ensures r.None? ==> checkpoint.Stopped()
  {
    hide SortedRanges, InSome;
    var before := ScanBefore(t, s, i, checkpoint);
    if before.None? || !before.value {
      return before;
    }
    for a := i + 1 to |s|
      invariant forall k :: i < k < a ==> Ignorable(t, s[k])
    {
      var ok := checkpoint.Call();
      if !ok {
        return None;
      }
      if !InRanges(s[a] as int, t.ignorable) {
        assert NearestAfter(t, s, i, a);
        NearestAfterIsUnique(t, s, i, a);
        return Some(!InRanges(s[a] as int, t.cased));
      }
    }
    return Some(true);
  }

  lemma NearestAfterIsUnique(t: Tables, s: string, i: nat, a: nat)
    requires i < |s| && NearestAfter(t, s, i, a)
    ensures forall other: nat :: NearestAfter(t, s, i, other) ==> other == a
  {
  }

  lemma NearestBeforeIsUnique(t: Tables, s: string, i: nat, b: nat)
    requires i <= |s| && NearestBefore(t, s, i, b)
    ensures forall other: nat :: NearestBefore(t, s, i, other) ==> other == b
  {
  }

  /** The backward half: whether the nearest scalar before that is not ignorable is cased. */
  method ScanBefore(t: Tables, s: string, i: nat, checkpoint: Checkpoint) returns (r: Option<bool>)
    requires GoodTables(t) && i < |s|
    modifies checkpoint
    ensures r.Some? ==> (r.value <==> exists b: nat :: NearestBefore(t, s, i, b) && Cased(t, s[b]))
    ensures r.None? ==> checkpoint.Stopped()
  {
    hide SortedRanges, InSome;
    var b := i;
    while b > 0
      invariant 0 <= b <= i && forall k :: b <= k < i ==> Ignorable(t, s[k])
    {
      b := b - 1;
      var ok := checkpoint.Call();
      if !ok {
        return None;
      }
      if !InRanges(s[b] as int, t.ignorable) {
        assert NearestBefore(t, s, i, b);
        NearestBeforeIsUnique(t, s, i, b);
        return Some(InRanges(s[b] as int, t.cased));
      }
    }
    return Some(false);
  }

  // ---------- the bounded loop ----------

  datatype LowercaseError = Interrupted | Resource

  function Utf8Length(c: char): nat {
    |Utf8Bytes(c)|
  }

  lemma Utf8LengthOf(c: char)
    ensures |Utf8([c])| == Utf8Length(c)
  {
    assert [c][1..] == "";
  }

  /** The mapping chosen for one scalar. */
  method MapScalar(t: Tables, s: string, i: nat, checkpoint: Checkpoint) returns (r: Option<string>)
    requires GoodTables(t) && i < |s|
    modifies checkpoint
    ensures r.Some? ==> r.value == MappedAt(t, s, i)
    ensures r.None? ==> checkpoint.Stopped()
  {
    if s[i] == SIGMA {
      var final := IsFinalSigma(t, s, i, checkpoint);
      if final.None? {
        return None;
      }
      if final.value {
        return Some([FINAL_SIGMA]);
      }
    }
    var at := SearchMapping(s[i], t.mappings, 0, |t.mappings|);
    if at < |t.mappings| {
      MappingIsSimple(t, s[i], at);
      return Some(t.mappings[at].1);
    }
    return Some([s[i]]);
  }

  lemma MappingIsSimple(t: Tables, c: char, at: nat)
    requires SortedMappings(t.mappings) && at < |t.mappings| && t.mappings[at].0 == c
    ensures Simple(t, c) == t.mappings[at].1
  {
  }

  /** Pushes the scalars of one mapping while they fit. */
  method PushMapped(output: string, mapped: string, cap: nat) returns (r: Option<string>)
    requires |Utf8(output)| <= cap
    ensures r == if |Utf8(output + mapped)| <= cap then Some(output + mapped) else None
  {
    hide Utf8, Utf8Bytes;
    var pushed := output;
    assert output + mapped[..0] == output;
    for k := 0 to |mapped|
      invariant pushed == output + mapped[..k] && |Utf8(pushed)| <= cap
    {
      PushOne(output, mapped, k);
      var next := |Utf8(pushed)| + Utf8Length(mapped[k]);
      if next > cap {
        return None;
      }
      pushed := pushed + [mapped[k]];
    }
    assert mapped[..|mapped|] == mapped;
    return Some(pushed);
  }

  lemma PushOne(output: string, mapped: string, k: nat)
    requires k < |mapped|
    ensures output + mapped[..k] + [mapped[k]] == output + mapped[..k + 1]
    ensures |Utf8(output + mapped[..k + 1])| == |Utf8(output + mapped[..k])| + Utf8Length(mapped[k])
    ensures |Utf8(output + mapped[..k + 1])| <= |Utf8(output + mapped)|
  {
    hide Utf8, Utf8Bytes;
    var before, after := output + mapped[..k], output + mapped[..k + 1];
    assert before + [mapped[k]] == after;
    assert after + mapped[k + 1..] == output + mapped;
    Utf8Concat(before, [mapped[k]]);
    Utf8LengthOf(mapped[k]);
    Utf8Concat(after, mapped[k + 1..]);
  }

  lemma {:induction false} LowerToGrows(t: Tables, s: string, i: nat, k: nat)
    requires i <= k <= |s|
    ensures |Utf8(LowerTo(t, s, i))| <= |Utf8(LowerTo(t, s, k))|
    decreases k
  {
    hide Utf8, MappedAt;
    if i < k {
      LowerToGrows(t, s, i, k - 1);
      Utf8Concat(LowerTo(t, s, k - 1), MappedAt(t, s, k - 1));
    }
  }

  /**
    `lowercase_bounded`: unless a checkpoint stops it, it returns the lowercase of
    the whole string exactly when that fits the cap, and otherwise reports the cap.
   */
  method LowercaseBounded(t: Tables, value: string, cap: nat, checkpoint: Checkpoint) returns (r: Result<string, LowercaseError>)
    requires GoodTables(t)
    modifies checkpoint
    ensures r == Failure(Interrupted) ==> checkpoint.Stopped()
    ensures r != Failure(Interrupted) ==>
              r == if |Utf8(Lower(t, value))| <= cap then Success(Lower(t, value)) else Failure(Resource)
    ensures (forall k :: checkpoint.gate(k)) ==> r != Failure(Interrupted)
  {
    hide GoodTables, MappedAt;
    var scalars := "";
    for i := 0 to |value|
      invariant scalars == value[..i]
    {
      var ok := checkpoint.Call();
      if !ok {
        return Failure(Interrupted);
      }
      scalars := scalars + [value[i]];
    }
    assert scalars == value;
    var output := "";
    for i := 0 to |scalars|
      invariant output == LowerTo(t, value, i) && |Utf8(output)| <= cap
    {
      LowerToGrows(t, value, i + 1, |value|);
      var ok := checkpoint.Call();
      if !ok {
        return Failure(Interrupted);
      }
      var mapped := MapScalar(t, scalars, i, checkpoint);
      if mapped.None? {
        return Failure(Interrupted);
      }
      var pushed := PushMapped(output, mapped.value, cap);
      if pushed.None? {
        return Failure(Resource);
      }
      output := pushed.value;
    }
    return Success(output);
  }

  // ---------- what lowercase means ----------

  predicate AllIgnorable(t: Tables, s: string) {
    forall i :: 0 <= i < |s| ==> InSome(s[i] as int, t.ignorable)
  }

  /** The text ends with a cased scalar, behind which everything is case-ignorable. */
  ghost predicate EndsCased(t: Tables, before: string) {
    exists x, c: char, u :: before == x + [c] + u && AllIgnorable(t, u)
      && InSome(c as int, t.cased) && !InSome(c as int, t.ignorable)
  }

  /** The text begins with a cased scalar, before which everything is case-ignorable. */
  ghost predicate BeginsCased(t: Tables, after: string) {
    exists u, c: char, x :: after == u + [c] + x && AllIgnorable(t, u)
      && InSome(c as int, t.cased) && !InSome(c as int, t.ignorable)
  }

  lemma EndsCasedAt(t: Tables, s: string, i: nat)
    requires i <= |s|
    ensures EndsCased(t, s[..i]) <==> exists b: nat :: NearestBefore(t, s, i, b) && Cased(t, s[b])
  {
    hide InSome;
    var before := s[..i];
    if b: nat :| NearestBefore(t, s, i, b) && Cased(t, s[b]) {
      assert before == before[..b] + [before[b]] + before[b + 1..];
      assert AllIgnorable(t, before[b + 1..]);
    }
    if EndsCased(t, before) {
      var x, c: char, u :| before == x + [c] + u && AllIgnorable(t, u) && InSome(c as int, t.cased)
        && !InSome(c as int, t.ignorable);
      assert s[|x|] == before[|x|] == c;
      forall k | |x| < k < i ensures Ignorable(t, s[k]) {
        assert s[k] == before[k] == u[k - |x| - 1];
      }
      assert NearestBefore(t, s, i, |x|);
    }
  }

  lemma BeginsCasedAt(t: Tables, s: string, i: nat)
    requires i < |s|
    ensures BeginsCased(t, s[i + 1..]) <==> exists a: nat :: NearestAfter(t, s, i, a) && Cased(t, s[a])
  {
    hide InSome;
    var after := s[i + 1..];
    if a: nat :| NearestAfter(t, s, i, a) && Cased(t, s[a]) {
      var k := a - i - 1;
      assert after == after[..k] + [after[k]] + after[k + 1..];
      assert AllIgnorable(t, after[..k]);
    }
    if BeginsCased(t, after) {
      var u, c: char, x :| after == u + [c] + x && AllIgnorable(t, u) && InSome(c as int, t.cased)
        && !InSome(c as int, t.ignorable);
      var a := i + 1 + |u|;
      assert s[a] == after[|u|] == c;
      forall k | i < k < a ensures Ignorable(t, s[k]) {
        assert s[k] == after[k - i - 1] == u[k - i - 1];
      }
      assert NearestAfter(t, s, i, a);
    }
  }

  /** Final_Sigma on texts: a cased letter ends the text before, and none begins the text behind. */
  lemma FinalSigmaMeans(t: Tables, s: string, i: nat)
    requires i < |s|
    ensures FinalSigma(t, s, i) <==> EndsCased(t, s[..i]) && !BeginsCased(t, s[i + 1..])
  {
    hide NearestBefore, NearestAfter, Cased, EndsCased, BeginsCased;
    EndsCasedAt(t, s, i);
    BeginsCasedAt(t, s, i);
  }

  /** What scalar `i` becomes: U+03A3 becomes U+03C2 at the end of a word, any other what the table says, or itself. */
  ghost predicate Becomes(t: Tables, s: string, i: nat, piece: string)
    requires i < |s|
  {
    if s[i] as int == 0x3A3 && EndsCased(t, s[..i]) && !BeginsCased(t, s[i + 1..]) then |piece| == 1 && piece[0] as int == 0x3C2
    else if exists m :: m in t.mappings && m.0 == s[i] then (s[i], piece) in t.mappings
    else piece == [s[i]]
  }

  lemma MappedMeans(t: Tables, s: string, i: nat, piece: string)
    requires SortedMappings(t.mappings) && i < |s|
    ensures Becomes(t, s, i, piece) <==> piece == MappedAt(t, s, i)
  {
    hide EndsCased, BeginsCased, FinalSigma;
    FinalSigmaMeans(t, s, i);
    if s[i] == SIGMA && FinalSigma(t, s, i) {
      assert |piece| == 1 ==> piece == [piece[0]];
    } else {
      SimpleMeans(t, s[i], piece);
    }
  }

  lemma SimpleMeans(t: Tables, c: char, piece: string)
    requires SortedMappings(t.mappings)
    ensures piece == Simple(t, c)
      <==> if exists m :: m in t.mappings && m.0 == c then (c, piece) in t.mappings else piece == [c]
  {
    if i :| 0 <= i < |t.mappings| && t.mappings[i].0 == c {
      MappingIsSimple(t, c, i);
      assert t.mappings[i] in t.mappings && t.mappings[i] == (c, t.mappings[i].1);
      if (c, piece) in t.mappings {
        var j :| 0 <= j < |t.mappings| && t.mappings[j] == (c, piece);
        assert i == j;
      }
    } else {
      forall m | m in t.mappings ensures m.0 != c {
        var j :| 0 <= j < |t.mappings| && t.mappings[j] == m;
      }
    }
  }

  /** The text is cut into what the scalars from `i` on become, one after the other. */
  ghost predicate CutFrom(t: Tables, s: string, i: nat, text: string)
    requires i <= |s|
    decreases |s| - i
  {
    if i == |s| then text == ""
    else exists k :: 0 <= k <= |text| && Becomes(t, s, i, text[..k]) && CutFrom(t, s, i + 1, text[k..])
  }

  ghost function LowerFrom(t: Tables, s: string, i: nat): string
    requires i <= |s|
    decreases |s| - i
  {
    if i == |s| then "" else MappedAt(t, s, i) + LowerFrom(t, s, i + 1)
  }

  lemma {:induction false} LowerParts(t: Tables, s: string, i: nat)
    requires i <= |s|
    ensures Lower(t, s) == LowerTo(t, s, i) + LowerFrom(t, s, i)
    decreases |s| - i
  {
    hide MappedAt;
    if i < |s| {
      LowerParts(t, s, i + 1);
      assert LowerTo(t, s, i) + MappedAt(t, s, i) + LowerFrom(t, s, i + 1)
        == LowerTo(t, s, i) + (MappedAt(t, s, i) + LowerFrom(t, s, i + 1));
    }
  }

  lemma {:induction false} CutIsLower(t: Tables, s: string, i: nat, text: string)
    requires SortedMappings(t.mappings) && i <= |s|
    ensures CutFrom(t, s, i, text) <==> text == LowerFrom(t, s, i)
    decreases |s| - i
  {
    hide MappedAt, Becomes, SortedMappings;
    if i < |s| {
      var piece, rest := MappedAt(t, s, i), LowerFrom(t, s, i + 1);
      MappedMeans(t, s, i, piece);
      if CutFrom(t, s, i, text) {
        var k :| 0 <= k <= |text| && Becomes(t, s, i, text[..k]) && CutFrom(t, s, i + 1, text[k..]);
        MappedMeans(t, s, i, text[..k]);
        CutIsLower(t, s, i + 1, text[k..]);
        assert text == text[..k] + text[k..];
      }
      if text == piece + rest {
        CutIsLower(t, s, i + 1, rest);
        assert text[..|piece|] == piece && text[|piece|..] == rest;
      }
    }
  }

  /** The lowercase is the one text that is cut, scalar by scalar, into what each becomes. */
  lemma LowerMeans(t: Tables, s: string, text: string)
    requires SortedMappings(t.mappings)
    ensures CutFrom(t, s, 0, text) <==> text == Lower(t, s)
  {
    hide CutFrom, LowerFrom, Lower, SortedMappings;
    LowerParts(t, s, 0);
    CutIsLower(t, s, 0, text);
  }
}
