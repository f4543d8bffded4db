/**
  `canonical_counted_sort`: the interruptible bottom-up merge sort with two
  ping-pong buffers. It returns the stable sort of its input and its charge
  depends on the length alone.
 */
module CountedSort {
  import opened Wrappers
  import opened Deadline
  import opened Accounting
  import opened StableSort

  // ---------- cost ----------

  function Pow2(k: nat): nat {
    if k == 0 then 1 else 2 * Pow2(k - 1)
  }

  /** The number of doublings of a run of length one until it covers `x` elements. */
  function CeilLog2(x: nat): nat {
    if x <= 1 then 0 else 1 + CeilLog2((x + 1) / 2)
  }

  /** One scratch pass, two units per output slot and merge pass, and a copy back after an odd number of passes. */
  function SortCost(n: nat): nat {
    if n < 2 then 0
    else
      var passes := CeilLog2(n);
      n * (1 + 2 * passes + passes % 2)
  }

  /** The logarithm is the one the caps assume: the least power of two that covers `n`. */
  lemma {:induction false} CeilLog2IsLeast(n: nat, k: nat)
    requires n <= Pow2(k)
    requires k == 0 || Pow2(k - 1) < n
    ensures CeilLog2(n) == k
  {
    if k == 0 {
    } else if k == 1 {
      assert n == 2 && CeilLog2(n) == 1 + CeilLog2(1);
    } else {
      CeilLog2IsLeast((n + 1) / 2, k - 1);
    }
  }

  lemma {:induction false} CeilLog2Covers(n: nat)
    ensures n <= Pow2(CeilLog2(n))
    ensures n > 1 ==> Pow2(CeilLog2(n) - 1) < n
  {
    if n > 1 {
      CeilLog2Covers((n + 1) / 2);
    }
  }

  lemma {:induction false} CeilLog2Monotone(a: nat, b: nat)
    requires a <= b
    ensures CeilLog2(a) <= CeilLog2(b)
  {
    if 1 < a {
      CeilLog2Monotone((a + 1) / 2, (b + 1) / 2);
    }
  }

  lemma {:induction false} Pow2Exceeds(k: nat)
    ensures k < Pow2(k)
  {
    if k > 0 {
      Pow2Exceeds(k - 1);
    }
  }

  /** The units charged once the scratch buffer is filled and `k` passes are done. */
  function RoundsCost(n: nat, k: nat): nat {
    if k == 0 then n else RoundsCost(n, k - 1) + 2 * n
  }

  /** Which buffer holds the result after `k` passes. */
  predicate InValues(k: nat) {
    k == 0 || !InValues(k - 1)
  }

  lemma {:induction false} RoundsCostClosed(n: nat, k: nat)
    ensures RoundsCost(n, k) == n * (1 + 2 * k)
    ensures InValues(k) <==> k % 2 == 0
  {
    if k > 0 {
      RoundsCostClosed(n, k - 1);
      assert n * (1 + 2 * (k - 1)) + 2 * n == n * (1 + 2 * k);
    }
  }

  lemma {:induction false} RoundsCostMonotone(n: nat, a: nat, b: nat)
    requires a <= b
    ensures RoundsCost(n, a) <= RoundsCost(n, b)
  {
    if a < b {
      RoundsCostMonotone(n, a, b - 1);
    }
  }

  /** While some run is shorter than the input, another pass still fits the closed form. */
  lemma PassBudget(n: nat, k: nat)
    requires n > 1 && Pow2(k) < n
    ensures RoundsCost(n, k + 1) <= RoundsCost(n, CeilLog2(n))
    ensures 2 * n <= RoundsCost(n, k + 1)
  {
    CeilLog2Covers(n);
    if CeilLog2(n) <= k {
      Pow2Monotone(CeilLog2(n), k);
    }
    RoundsCostMonotone(n, k + 1, CeilLog2(n));
    RoundsCostMonotone(n, 1, k + 1);
    assert RoundsCost(n, 1) == RoundsCost(n, 0) + 2 * n;
  }

  /** After the last pass only the copy back after an odd number of passes is left to charge. */
  lemma FinalBudget(n: nat)
    requires n > 1
    ensures SortCost(n) == RoundsCost(n, CeilLog2(n)) + (if InValues(CeilLog2(n)) then 0 else n)
  {
    var c := CeilLog2(n);
    RoundsCostClosed(n, c);
    assert n * (1 + 2 * c + 1) == n * (1 + 2 * c) + n;
  }

  lemma {:induction false} Pow2Monotone(a: nat, b: nat)
    requires a <= b
    ensures Pow2(a) <= Pow2(b)
  {
    if a < b {
      Pow2Monotone(a, b - 1);
    }
  }

  // ---------- what a pass computes ----------

  /** Merges neighbouring runs of length `width`, from left to right. */
  function PassOver<T>(leq: (T, T) -> bool, s: seq<T>, width: nat): seq<T>
    requires width > 0
    decreases |s|
  {
    if s == [] then []
    else
      var middle := Min(width, |s|);
      var end := Min(middle + width, |s|);
      Merge(leq, s[..middle], s[middle..end]) + PassOver(leq, s[end..], width)
  }

  /** Every run of length `width` holds the stable sort of what the input held there. */
  ghost predicate RunsSorted<T>(leq: (T, T) -> bool, s: seq<T>, input: seq<T>, width: nat)
    requires width > 0
    decreases |s|
  {
    && |s| == |input|
    && if |s| <= width then s == Sort(leq, input)
       else s[..width] == Sort(leq, input[..width]) && RunsSorted(leq, s[width..], input[width..], width)
  }

  lemma {:induction false} SingletonsAreSorted<T>(leq: (T, T) -> bool, s: seq<T>)
    ensures RunsSorted(leq, s, s, 1)
    decreases |s|
  {
    if |s| > 1 {
      SingletonsAreSorted(leq, s[1..]);
      assert s[..1] == [s[0]];
      assert Sort(leq, [s[0]]) == Insert(leq, s[0], Sort(leq, []));
    } else if |s| == 1 {
      assert s[1..] == [];
      assert Sort(leq, s[1..]) == [];
      assert s == [s[0]];
    }
  }

  lemma {:induction false} MergeLength<T>(leq: (T, T) -> bool, a: seq<T>, b: seq<T>)
    ensures |Merge(leq, a, b)| == |a| + |b|
    decreases |a| + |b|
  {
    if a != [] && b != [] {
      if leq(a[0], b[0]) {
        MergeLength(leq, a[1..], b);
      } else {
        MergeLength(leq, a, b[1..]);
      }
    }
  }

  /** What is left to merge once `left` and `right` elements of the two runs are placed. */
  ghost function Rest<T>(leq: (T, T) -> bool, s: seq<T>, left: nat, middle: nat, right: nat, end: nat): seq<T>
    requires left <= middle <= right <= end <= |s|
  {
    Merge(leq, s[left..middle], s[right..end])
  }

  predicate TakesLeft<T>(leq: (T, T) -> bool, s: seq<T>, left: nat, middle: nat, right: nat, end: nat)
    requires left <= middle <= right <= end <= |s|
  {
    if left < middle && right < end then leq(s[left], s[right]) else left < middle
  }

  /** One slot: the element taken is the next one of `target`, and the rest follows it. */
  lemma MergeStep<T>(leq: (T, T) -> bool, s: seq<T>, left: nat, middle: nat, right: nat, end: nat,
                     target: seq<T>, output: nat)
    requires left <= middle <= right <= end <= |s|
    requires left < middle || right < end
    requires output <= |target| && Rest(leq, s, left, middle, right, end) == target[output..]
    ensures output < |target|
    ensures TakesLeft(leq, s, left, middle, right, end) ==>
              && left < middle && target[output] == s[left]
              && Rest(leq, s, left + 1, middle, right, end) == target[output + 1..]
    ensures !TakesLeft(leq, s, left, middle, right, end) ==>
              && right < end && target[output] == s[right]
              && Rest(leq, s, left, middle, right + 1, end) == target[output + 1..]
  {
    var a, b := s[left..middle], s[right..end];
    MergeLength(leq, a, b);
    assert target[output..][1..] == target[output + 1..];
    if TakesLeft(leq, s, left, middle, right, end) {
      assert a[1..] == s[left + 1..middle] && a == [a[0]] + a[1..];
    } else {
      assert b[1..] == s[right + 1..end] && b == [b[0]] + b[1..];
    }
  }

  /** The runs of a sequence split at any multiple of the width; here after the first two. */
  lemma FirstRuns<T>(leq: (T, T) -> bool, s: seq<T>, input: seq<T>, width: nat)
    requires 0 < width < |s|
    requires RunsSorted(leq, s, input, width)
    ensures var end := Min(2 * width, |s|);
      && s[..width] == Sort(leq, input[..width])
      && s[width..end] == Sort(leq, input[width..end])
      && (end < |s| ==> RunsSorted(leq, s[end..], input[end..], width))
  {
    hide Sort;
    var tail, rest := s[width..], input[width..];
    var end := Min(2 * width, |s|);
    if |tail| <= width {
      assert s[width..end] == tail && input[width..end] == rest;
    } else {
      assert tail[..width] == s[width..end] && rest[..width] == input[width..end];
      assert tail[width..] == s[end..] && rest[width..] == input[end..];
    }
  }

  /** A run that ends the sequence extends a sorted prefix of exactly `width` elements. */
  lemma RunsAppend<T>(leq: (T, T) -> bool, head: seq<T>, tail: seq<T>, input: seq<T>, width: nat)
    requires 0 < width < |input| && |head| == width
    requires head == Sort(leq, input[..width])
    requires RunsSorted(leq, tail, input[width..], width)
    ensures RunsSorted(leq, head + tail, input, width)
  {
    var s := head + tail;
    assert s[..width] == head && s[width..] == tail;
  }

  lemma PassSplits<T>(leq: (T, T) -> bool, s: seq<T>, start: nat, middle: nat, end: nat, width: nat)
    requires width > 0 && start < |s|
    requires middle == Min(start + width, |s|) && end == Min(middle + width, |s|)
    ensures PassOver(leq, s[start..], width)
      == Rest(leq, s, start, middle, middle, end) + PassOver(leq, s[end..], width)
    ensures |Rest(leq, s, start, middle, middle, end)| == end - start
  {
    hide Merge;
    var rest := s[start..];
    assert rest[..middle - start] == s[start..middle];
    assert rest[middle - start..end - start] == s[middle..end];
    assert rest[end - start..] == s[end..];
    MergeLength(leq, s[start..middle], s[middle..end]);
  }

  /** The first two runs of a longer sequence merge into one sorted run. */
  lemma FirstMerge<T(!new)>(leq: (T, T) -> bool, s: seq<T>, input: seq<T>, width: nat, end: nat, head: seq<T>)
    requires TotalPreorder(leq) && 0 < width < |s| && end == Min(2 * width, |s|)
    requires RunsSorted(leq, s, input, width)
    requires head == Merge(leq, s[..width], s[width..end])
    ensures head == Sort(leq, input[..end])
  {
    FirstRuns(leq, s, input, width);
    var left, right := input[..width], input[width..end];
    assert left + right == input[..end];
    MergeOfSorts(leq, left, right);
  }

  lemma {:induction false} PassDoublesRuns<T(!new)>(leq: (T, T) -> bool, s: seq<T>, input: seq<T>, width: nat)
    requires TotalPreorder(leq) && width > 0
    requires RunsSorted(leq, s, input, width)
    ensures RunsSorted(leq, PassOver(leq, s, width), input, 2 * width)
    decreases |s|
  {
    hide Sort;
    var n := |s|;
    if n == 0 {
    } else if n <= width {
      assert s[..n] == s && s[n..n] == [] && s[n..] == [];
      assert PassOver(leq, s, width) == s;
    } else {
      var end := Min(2 * width, n);
      var head := Merge(leq, s[..width], s[width..end]);
      assert s[0..] == s;
      PassSplits(leq, s, 0, width, end, width);
      FirstMerge(leq, s, input, width, end, head);
      if n <= 2 * width {
        assert s[end..] == [] && input[..end] == input;
        assert PassOver(leq, s, width) == head;
      } else {
        FirstRuns(leq, s, input, width);
        PassDoublesRuns(leq, s[end..], input[end..], width);
        RunsAppend(leq, head, PassOver(leq, s[end..], width), input, 2 * width);
      }
    }
  }

  // ---------- the array algorithm ----------

  /** One output slot: charge the decision, move the element, charge the move. */
  method MergeSlot<T>(leq: (T, T) -> bool, source: array<T>, destination: array<T>,
                      left: nat, middle: nat, right: nat, end: nat, output: nat, ghost target: seq<T>,
                      work: WorkCell, deadline: ExecutionDeadline)
    returns (r: Result<bool, ExecutionFailure>)
    requires deadline.Valid() && source != destination
    requires left <= middle <= right <= end <= source.Length == destination.Length
    requires (left < middle || right < end) && output < destination.Length && output <= |target|
    requires Rest(leq, source[..], left, middle, right, end) == target[output..]
    modifies destination, work, deadline, deadline.mono
    ensures r.Success? ==> Charged(work, deadline, old(work.counts), old(deadline.completedUnits), 2)
    ensures r.Success? ==> output < |target| && destination[output] == target[output]
    ensures forall k :: 0 <= k < destination.Length && k != output ==> destination[k] == old(destination[k])
    ensures r.Success? ==> if r.value
      then left < middle && Rest(leq, source[..], left + 1, middle, right, end) == target[output + 1..]
      else right < end && Rest(leq, source[..], left, middle, right + 1, end) == target[output + 1..]
    ensures r.Failure? ==> Explained(r.error, deadline.Expired(), old(work.counts), old(deadline.completedUnits), 2)
  {
    hide ExecutionDeadline.Valid, ExecutionDeadline.Expired;
    MergeStep(leq, source[..], left, middle, right, end, target, output);
    var accounted := AccountGraphScanUnit(work, deadline);
    if accounted.Fail? {
      return Failure(accounted.error);
    }
    var takeLeft := if left < middle && right < end then leq(source[left], source[right]) else left < middle;
    destination[output] := if takeLeft then source[left] else source[right];
    accounted := AccountGraphScanUnit(work, deadline);
    if accounted.Fail? {
      return Failure(accounted.error);
    }
    return Success(takeLeft);
  }

  /** Fills `destination[start..end]` with the merge of the two runs; `target` is what the whole pass writes. */
  method MergeRun<T>(leq: (T, T) -> bool, source: array<T>, destination: array<T>,
                     start: nat, middle: nat, end: nat, ghost target: seq<T>,
                     work: WorkCell, deadline: ExecutionDeadline)
    returns (r: Outcome<ExecutionFailure>)
    requires deadline.Valid() && source != destination
    requires start <= middle <= end <= source.Length == destination.Length == |target|
    requires Rest(leq, source[..], start, middle, middle, end) == target[start..end]
    requires forall k :: 0 <= k < start ==> destination[k] == target[k]
    modifies destination, work, deadline, deadline.mono
    ensures r.Pass? ==> forall k :: 0 <= k < end ==> destination[k] == target[k]
    ensures r.Pass? ==> Charged(work, deadline, old(work.counts), old(deadline.completedUnits), 2 * (end - start))
    ensures r.Fail? ==> Explained(r.error, deadline.Expired(), old(work.counts), old(deadline.completedUnits), 2 * (end - start))
  {
    hide ExecutionDeadline.Valid, ExecutionDeadline.Expired, Rest;
    ghost var upTo := target[..end];
    var left, right := start, middle;
    for output := start to end
      invariant start <= left <= middle <= right <= end
      invariant left - start + right - middle == output - start
      invariant Rest(leq, source[..], left, middle, right, end) == upTo[output..]
      invariant forall k :: 0 <= k < output ==> destination[k] == upTo[k]
      invariant Charged(work, deadline, old(work.counts), old(deadline.completedUnits), 2 * (output - start))
    {
      var slot := MergeSlot(leq, source, destination, left, middle, right, end, output, upTo, work, deadline);
      if slot.Failure? {
        return Fail(slot.error);
      }
      if slot.value {
        left := left + 1;
      } else {
        right := right + 1;
      }
    }
    return Pass;
  }

  lemma {:induction false} PassLength<T>(leq: (T, T) -> bool, s: seq<T>, width: nat)
    requires width > 0
    ensures |PassOver(leq, s, width)| == |s|
    decreases |s|
  {
    hide Merge;
    if s != [] {
      var middle := Min(width, |s|);
      var end := Min(middle + width, |s|);
      MergeLength(leq, s[..middle], s[middle..end]);
      PassLength(leq, s[end..], width);
    }
  }

  lemma SplitAt<T>(s: seq<T>, start: nat, end: nat, a: seq<T>, b: seq<T>)
    requires start <= end <= |s| && |a| == end - start
    requires s[start..] == a + b
    ensures s[start..end] == a && s[end..] == b
  {
    assert s[start..end] == s[start..][..end - start];
    assert s[end..] == s[start..][end - start..];
  }

  lemma PassStep<T>(leq: (T, T) -> bool, s: seq<T>, start: nat, middle: nat, end: nat, width: nat, target: seq<T>)
    requires width > 0 && start < |s| == |target|
    requires middle == Min(start + width, |s|) && end == Min(middle + width, |s|)
    requires PassOver(leq, s[start..], width) == target[start..]
    ensures Rest(leq, s, start, middle, middle, end) == target[start..end]
    ensures PassOver(leq, s[end..], width) == target[end..]
  {
    PassSplits(leq, s, start, middle, end, width);
    SplitAt(target, start, end, Rest(leq, s, start, middle, middle, end), PassOver(leq, s[end..], width));
  }

  method MergePass<T>(leq: (T, T) -> bool, source: array<T>, destination: array<T>, width: nat,
                      work: WorkCell, deadline: ExecutionDeadline)
    returns (r: Outcome<ExecutionFailure>)
    requires deadline.Valid() && source != destination && width > 0
    requires source.Length == destination.Length
    modifies destination, work, deadline, deadline.mono
    ensures r.Pass? ==> destination[..] == PassOver(leq, source[..], width)
    ensures r.Pass? ==> Charged(work, deadline, old(work.counts), old(deadline.completedUnits), 2 * source.Length)
    ensures r.Fail? ==> Explained(r.error, deadline.Expired(), old(work.counts), old(deadline.completedUnits), 2 * source.Length)
  {
    hide ExecutionDeadline.Valid, ExecutionDeadline.Expired;
    ghost var target := PassOver(leq, source[..], width);
    PassLength(leq, source[..], width);
    var start := 0;
    assert source[..][0..] == source[..] && target[0..] == target;
    while start < source.Length
      invariant start <= source.Length
      invariant PassOver(leq, source[..][start..], width) == target[start..]
      invariant forall k :: 0 <= k < start ==> destination[k] == target[k]
      invariant Charged(work, deadline, old(work.counts), old(deadline.completedUnits), 2 * start)
    {
      var middle := Min(start + width, source.Length);
      var end := Min(middle + width, source.Length);
      PassStep(leq, source[..], start, middle, end, width, target);
      :- MergeRun(leq, source, destination, start, middle, end, target, work, deadline);
      start := end;
    }
    return Pass;
  }

  method CopyBack<T>(values: array<T>, scratch: array<T>, work: WorkCell, deadline: ExecutionDeadline)
    returns (r: Outcome<ExecutionFailure>)
    requires deadline.Valid() && values != scratch && values.Length == scratch.Length
    modifies values, work, deadline, deadline.mono
    ensures r.Pass? ==> values[..] == scratch[..]
    ensures r.Pass? ==> Charged(work, deadline, old(work.counts), old(deadline.completedUnits), values.Length)
    ensures r.Fail? ==> Explained(r.error, deadline.Expired(), old(work.counts), old(deadline.completedUnits), values.Length)
  {
    hide ExecutionDeadline.Valid, ExecutionDeadline.Expired;
    for i := 0 to values.Length
      invariant forall k :: 0 <= k < i ==> values[k] == scratch[k]
      invariant Charged(work, deadline, old(work.counts), old(deadline.completedUnits), i)
    {
      values[i] := scratch[i];
      :- AccountGraphScanUnit(work, deadline);
    }
    return Pass;
  }

  /** `k` passes are done: runs of length `width == 2^k` are sorted, and the last pass was needed. */
  ghost predicate AfterPasses<T>(leq: (T, T) -> bool, held: seq<T>, input: seq<T>, width: nat, k: nat) {
    && width == Pow2(k) && width > 0
    && (k == 0 || Pow2(k - 1) < |input|)
    && RunsSorted(leq, held, input, width)
  }

  lemma OnePass<T(!new)>(leq: (T, T) -> bool, held: seq<T>, input: seq<T>, width: nat, k: nat)
    requires TotalPreorder(leq) && AfterPasses(leq, held, input, width, k) && width < |input|
    ensures AfterPasses(leq, PassOver(leq, held, width), input, 2 * width, k + 1)
    ensures RoundsCost(|input|, k + 1) <= RoundsCost(|input|, CeilLog2(|input|))
    ensures 2 * |input| <= RoundsCost(|input|, k + 1)
  {
    PassBudget(|input|, k);
    PassDoublesRuns(leq, held, input, width);
  }

  lemma LastPass<T>(leq: (T, T) -> bool, held: seq<T>, input: seq<T>, width: nat, k: nat)
    requires AfterPasses(leq, held, input, width, k) && |input| <= width
    ensures held == Sort(leq, input) && k == CeilLog2(|input|)
  {
    CeilLog2IsLeast(|input|, k);
  }

  /** One round of the outer loop: a pass from the buffer that holds the data into the other one. */
  method NextPass<T(!new)>(leq: (T, T) -> bool, source: array<T>, destination: array<T>, width: nat,
                           work: WorkCell, deadline: ExecutionDeadline,
                           ghost input: seq<T>, ghost k: nat, ghost w0: WorkCounts, ghost c0: nat)
    returns (r: Outcome<ExecutionFailure>)
    requires TotalPreorder(leq) && source != destination && source.Length == destination.Length == |input|
    requires AfterPasses(leq, source[..], input, width, k) && width < |input|
    requires Charged(work, deadline, w0, c0, RoundsCost(|input|, k))
    modifies destination, work, deadline, deadline.mono
    ensures r.Pass? ==> AfterPasses(leq, destination[..], input, 2 * width, k + 1)
    ensures r.Pass? ==> Charged(work, deadline, w0, c0, RoundsCost(|input|, k + 1))
    ensures r.Fail? ==> Explained(r.error, deadline.Expired(), w0, c0, RoundsCost(|input|, CeilLog2(|input|)))
  {
    hide ExecutionDeadline.Valid, ExecutionDeadline.Expired;
    OnePass(leq, source[..], input, width, k);
    :- MergePass(leq, source, destination, width, work, deadline);
    if 2 * width > U64_MAX {
      return Fail(ExecutionFailure(ResourceLimit, work.counts));
    }
    return Pass;
  }

  /** All passes: doubles the run length until one run covers the input, and says which buffer holds it. */
  method RunPasses<T(!new)>(leq: (T, T) -> bool, values: array<T>, scratch: array<T>,
                            work: WorkCell, deadline: ExecutionDeadline, ghost w0: WorkCounts, ghost c0: nat)
    returns (r: Result<bool, ExecutionFailure>)
    requires TotalPreorder(leq) && values != scratch
    requires values.Length == scratch.Length > 1 && values[..] == scratch[..]
    requires Charged(work, deadline, w0, c0, values.Length)
    modifies values, scratch, work, deadline, deadline.mono
    ensures r.Success? ==> r.value == InValues(CeilLog2(values.Length))
    ensures r.Success? ==> (if r.value then values else scratch)[..] == Sort(leq, old(values[..]))
    ensures r.Success? ==> Charged(work, deadline, w0, c0, RoundsCost(values.Length, CeilLog2(values.Length)))
    ensures r.Failure? ==> Explained(r.error, deadline.Expired(), w0, c0, RoundsCost(values.Length, CeilLog2(values.Length)))
  {
    hide ExecutionDeadline.Valid, ExecutionDeadline.Expired;
    ghost var input, k := values[..], 0;
    var source, destination := values, scratch;
    var width := 1;
    var sourceIsValues := true;
    SingletonsAreSorted(leq, input);
    while width < values.Length
      invariant AfterPasses(leq, source[..], input, width, k)
      invariant sourceIsValues == InValues(k)
      invariant source == (if sourceIsValues then values else scratch)
      invariant destination == (if sourceIsValues then scratch else values)
      invariant Charged(work, deadline, w0, c0, RoundsCost(values.Length, k))
      decreases values.Length - width
    {
      var pass := NextPass(leq, source, destination, width, work, deadline, input, k, w0, c0);
      if pass.Fail? {
        return Failure(pass.error);
      }
      source, destination := destination, source;
      sourceIsValues, width, k := !sourceIsValues, 2 * width, k + 1;
    }
    LastPass(leq, source[..], input, width, k);
    return Success(sourceIsValues);
  }

  /**
    Sorts `values` in place. On success the array holds the stable sort of its
    former contents and exactly `SortCost(length)` units were charged; the only
    other outcomes are the deadline and a 64-bit counter that cannot hold the cost.
   */
  method CanonicalCountedSort<T(!new, 0)>(values: array<T>, leq: (T, T) -> bool,
                                          work: WorkCell, deadline: ExecutionDeadline)
    returns (r: Outcome<ExecutionFailure>)
    requires deadline.Valid() && TotalPreorder(leq)
    modifies values, work, deadline, deadline.mono
    ensures r.Pass? ==> values[..] == Sort(leq, old(values[..]))
    ensures r.Pass? ==> Charged(work, deadline, old(work.counts), old(deadline.completedUnits), SortCost(values.Length))
    ensures r.Fail? ==> Explained(r.error, deadline.Expired(), old(work.counts), old(deadline.completedUnits),
      SortCost(values.Length))
  {
    hide ExecutionDeadline.Valid, ExecutionDeadline.Expired;
    var n := values.Length;
    var snapshot := values[..];
    if n < 2 {
      SingletonsAreSorted(leq, snapshot);
      return Pass;
    }
    FinalBudget(n);
    RoundsCostMonotone(n, 0, CeilLog2(n));
    var built := BuildCountedGraphVec(n, i requires 0 <= i < |snapshot| => snapshot[i], work, deadline);
    if built.Failure? {
      return Fail(built.error);
    }
    var scratch := built.value;
    assert scratch[..] == values[..];
    var passes := RunPasses(leq, values, scratch, work, deadline, old(work.counts), old(deadline.completedUnits));
    if passes.Failure? {
      return Fail(passes.error);
    }
    if !passes.value {
      :- CopyBack(values, scratch, work, deadline);
    }
    return Pass;
  }
}
