/**
  The power iteration over exact reals: it contracts by `1 - t` for any scores,
  signed or not, and it keeps scores nonnegative with mass at most one.
 */
module PprReal {
  import opened Csr
  import opened PprSpec

  function Abs(x: real): real {
    if x < 0.0 then -x else x
  }

  function Reals(hubFactor: nat -> real): Arith<real> {
    Arith(
      0.0, 1.0,
      (x, y) => x + y,
      (x, y) => x - y,
      (x, y) => x * y,
      (x, y) => if y == 0.0 then 0.0 else x / y,
      Abs,
      (x, y) => x < y,
      (x, y) => x <= y,
      x => true,
      n => n as real,
      hubFactor)
  }

  function Sum(s: seq<real>, j: nat): real
    requires j <= |s|
  {
    if j == 0 then 0.0 else Sum(s, j - 1) + s[j - 1]
  }

  function Gap(x: seq<real>, y: seq<real>, j: nat): real
    requires j <= |x| == |y|
  {
    if j == 0 then 0.0 else Gap(x, y, j - 1) + Abs(x[j - 1] - y[j - 1])
  }

  function L1(x: seq<real>, y: seq<real>): real
    requires |x| == |y|
  {
    Gap(x, y, |x|)
  }

  function Mass(x: seq<real>): real {
    Sum(x, |x|)
  }

  predicate Nonnegative(s: seq<real>) {
    forall i :: 0 <= i < |s| ==> s[i] >= 0.0
  }

  /** Nonnegative weights, the totals the degree pass computed, and damping and teleport probability in range. */
  predicate Usable(net: Network<real>, hub: nat -> real, n: nat) {
    && WellFormed(net, n)
    && (forall j :: 0 <= j < |net.arcs| ==> net.arcs[j].weight >= 0.0)
    && (forall s :: 0 <= s < n ==> net.totals[s] == WeightSum(Reals(hub), net.arcs, |net.arcs|, s))
    && TotalsUsable(Reals(hub), net, n)
    && (forall v :: 0 <= v < n ==> 0.0 < net.damping[v] <= 1.0)
    && 0.0 <= net.t <= 1.0
  }

  // ---------- small facts about products ----------

  lemma ProductBounds(a: real, b: real)
    requires 0.0 <= a && 0.0 <= b <= 1.0
    ensures 0.0 <= a * b <= a
  {
    assert a * b == a - a * (1.0 - b);
  }

  lemma AbsProduct(k: real, x: real)
    requires 0.0 <= k
    ensures Abs(k * x) == k * Abs(x)
  {
  }

  // ---------- what one arc contributes ----------

  /** The share of its source's outgoing weight that an arc has. */
  function Share(net: Network<real>, n: nat, j: nat): real
    requires WellFormed(net, n) && j < |net.arcs|
  {
    var a := net.arcs[j];
    if net.totals[a.source] == 0.0 then 0.0 else a.weight / net.totals[a.source]
  }

  function CarriedBy(hub: nat -> real, net: Network<real>, x: seq<real>, j: nat): real
    requires WellFormed(net, |x|) && j < |net.arcs|
  {
    Carried(Reals(hub), net, x, net.arcs[j])
  }

  lemma CarriedForm(hub: nat -> real, net: Network<real>, x: seq<real>, j: nat)
    requires WellFormed(net, |x|) && j < |net.arcs|
    ensures CarriedBy(hub, net, x, j)
      == (1.0 - net.t) * x[net.arcs[j].source] * Share(net, |x|, j) * net.damping[net.arcs[j].target]
  {
  }

  lemma ShareIsNonnegative(hub: nat -> real, net: Network<real>, n: nat, j: nat)
    requires Usable(net, hub, n) && j < |net.arcs|
    ensures Share(net, n, j) >= 0.0
  {
  }

  lemma CarriedDifference(hub: nat -> real, net: Network<real>, x: seq<real>, y: seq<real>, j: nat)
    requires |x| == |y| && Usable(net, hub, |x|) && j < |net.arcs|
    ensures var s := net.arcs[j].source;
      Abs(CarriedBy(hub, net, x, j) - CarriedBy(hub, net, y, j))
      <= (1.0 - net.t) * (Abs(x[s] - y[s]) * Share(net, |x|, j))
  {
    var a := net.arcs[j];
    var p, w, h := 1.0 - net.t, Share(net, |x|, j), net.damping[a.target];
    var dx := x[a.source] - y[a.source];
    CarriedForm(hub, net, x, j);
    CarriedForm(hub, net, y, j);
    ShareIsNonnegative(hub, net, |x|, j);
    assert 0.0 < h <= 1.0;
    hide CarriedBy, Share, WeightSum;
    DampedDifference(p, x[a.source], y[a.source], w, h);
  }

  lemma DampedDifference(p: real, x: real, y: real, w: real, h: real)
    requires 0.0 <= p && 0.0 <= w && 0.0 <= h <= 1.0
    ensures Abs(p * x * w * h - p * y * w * h) <= p * (Abs(x - y) * w)
  {
    var k := p * w;
    assert k >= 0.0;
    assert p * x * w * h - p * y * w * h == (k * h) * (x - y);
    ProductBounds(k, h);
    AbsProduct(k * h, x - y);
    ProductOrder(Abs(x - y), k * h, k);
    assert Abs(x - y) * k == p * (Abs(x - y) * w);
  }

  lemma ProductOrder(c: real, a: real, b: real)
    requires a <= b && 0.0 <= c
    ensures c * a <= c * b
  {
    assert c * b - c * a == c * (b - a);
    assert c * (b - a) >= 0.0;
  }

  lemma CarriedMass(hub: nat -> real, net: Network<real>, x: seq<real>, j: nat)
    requires Usable(net, hub, |x|) && Nonnegative(x) && j < |net.arcs|
    ensures var a := net.arcs[j];
      var full := (1.0 - net.t) * (x[a.source] * Share(net, |x|, j));
      && 0.0 <= CarriedBy(hub, net, x, j) <= full
      && (net.damping[a.target] == 1.0 ==> CarriedBy(hub, net, x, j) == full)
  {
    var a := net.arcs[j];
    CarriedForm(hub, net, x, j);
    ShareIsNonnegative(hub, net, |x|, j);
    assert 0.0 < net.damping[a.target] <= 1.0 && 0.0 <= x[a.source];
    hide CarriedBy, Share, WeightSum;
    DampedProduct(1.0 - net.t, x[a.source], Share(net, |x|, j), net.damping[a.target]);
  }

  lemma DampedProduct(k: real, x: real, w: real, h: real)
    requires 0.0 <= k && 0.0 <= x && 0.0 <= w && 0.0 <= h <= 1.0
    ensures 0.0 <= k * x * w * h <= k * (x * w)
    ensures h == 1.0 ==> k * x * w * h == k * (x * w)
  {
    var kx := k * x;
    assert kx >= 0.0;
    var kxw := kx * w;
    assert kxw >= 0.0;
    assert kxw == k * (x * w);
    ProductBounds(kxw, h);
  }

  // ---------- accumulating arcs ----------

  /** Adds contribution `c[i]` to slot `arcs[i].target`, arc after arc. */
  function Accumulate(arcs: seq<Arc<real>>, c: seq<real>, n: nat, j: nat): (r: seq<real>)
    requires j <= |arcs| == |c| && Within(arcs, n)
    ensures |r| == n
  {
    if j == 0 then seq(n, i => 0.0)
    else
      var before := Accumulate(arcs, c, n, j - 1);
      before[arcs[j - 1].target := before[arcs[j - 1].target] + c[j - 1]]
  }

  function AllCarried(hub: nat -> real, net: Network<real>, x: seq<real>): (c: seq<real>)
    requires WellFormed(net, |x|)
    ensures |c| == |net.arcs|
  {
    seq(|net.arcs|, j requires 0 <= j < |net.arcs| => CarriedBy(hub, net, x, j))
  }

  lemma {:induction false} SpreadAccumulates(hub: nat -> real, net: Network<real>, x: seq<real>, j: nat)
    requires WellFormed(net, |x|) && j <= |net.arcs|
    ensures Spread(Reals(hub), net, x, j) == Accumulate(net.arcs, AllCarried(hub, net, x), |x|, j)
  {
    if j > 0 {
      SpreadAccumulates(hub, net, x, j - 1);
      assert AllCarried(hub, net, x)[j - 1] == CarriedBy(hub, net, x, j - 1);
    }
  }

  lemma {:induction false} GapUpdate(x: seq<real>, y: seq<real>, v: nat, a: real, b: real, j: nat)
    requires j <= |x| == |y| && v < |x|
    ensures Gap(x[v := x[v] + a], y[v := y[v] + b], j) <= Gap(x, y, j) + (if v < j then Abs(a - b) else 0.0)
  {
    if j > 0 {
      GapUpdate(x, y, v, a, b, j - 1);
    }
  }

  lemma {:induction false} SumUpdate(x: seq<real>, v: nat, a: real, j: nat)
    requires j <= |x| && v < |x|
    ensures Sum(x[v := a], j) == Sum(x, j) + (if v < j then a - x[v] else 0.0)
  {
    if j > 0 {
      SumUpdate(x, v, a, j - 1);
    }
  }

  lemma {:induction false} ZeroGap(x: seq<real>, j: nat)
    requires j <= |x|
    ensures Gap(x, x, j) == 0.0
  {
    if j > 0 {
      ZeroGap(x, j - 1);
    }
  }

  lemma {:induction false} ZeroSum(x: seq<real>, j: nat)
    requires j <= |x| && forall i :: 0 <= i < |x| ==> x[i] == 0.0
    ensures Sum(x, j) == 0.0
  {
    if j > 0 {
      ZeroSum(x, j - 1);
    }
  }

  lemma {:induction false} AccumulateGap(arcs: seq<Arc<real>>, a: seq<real>, b: seq<real>, n: nat, j: nat)
    requires j <= |arcs| == |a| == |b| && Within(arcs, n)
    ensures L1(Accumulate(arcs, a, n, j), Accumulate(arcs, b, n, j)) <= Gap(a, b, j)
  {
    if j == 0 {
      ZeroGap(Accumulate(arcs, a, n, 0), n);
    } else {
      AccumulateGap(arcs, a, b, n, j - 1);
      GapUpdate(Accumulate(arcs, a, n, j - 1), Accumulate(arcs, b, n, j - 1), arcs[j - 1].target, a[j - 1], b[j - 1], n);
    }
  }

  lemma {:induction false} AccumulateMass(arcs: seq<Arc<real>>, c: seq<real>, n: nat, j: nat)
    requires j <= |arcs| == |c| && Within(arcs, n) && Nonnegative(c)
    ensures Mass(Accumulate(arcs, c, n, j)) == Sum(c, j)
    ensures Nonnegative(Accumulate(arcs, c, n, j))
  {
    var r := Accumulate(arcs, c, n, j);
    if j == 0 {
      ZeroSum(r, n);
    } else {
      AccumulateMass(arcs, c, n, j - 1);
      var before, v := Accumulate(arcs, c, n, j - 1), arcs[j - 1].target;
      SumUpdate(before, v, before[v] + c[j - 1], n);
    }
  }

  // ---------- scaled sums ----------

  lemma Distribute(k: real, a: real, b: real)
    ensures k * (a + b) == k * a + k * b
  {
  }

  /** Termwise bounds `c[i] <= k * e[i]` add up. */
  lemma {:induction false} ScaledSum(k: real, c: seq<real>, e: seq<real>, j: nat)
    requires j <= |c| == |e|
    requires forall i :: 0 <= i < |c| ==> c[i] <= k * e[i]
    ensures Sum(c, j) <= k * Sum(e, j)
    ensures (forall i :: 0 <= i < |c| ==> c[i] == k * e[i]) ==> Sum(c, j) == k * Sum(e, j)
  {
    if j > 0 {
      ScaledSum(k, c, e, j - 1);
      Distribute(k, Sum(e, j - 1), e[j - 1]);
    }
  }

  function Differences(x: seq<real>, y: seq<real>): (d: seq<real>)
    requires |x| == |y|
    ensures |d| == |x| && Nonnegative(d)
  {
    seq(|x|, i requires 0 <= i < |x| => Abs(x[i] - y[i]))
  }

  lemma {:induction false} DifferencesSum(x: seq<real>, y: seq<real>, j: nat)
    requires j <= |x| == |y|
    ensures Sum(Differences(x, y), j) == Gap(x, y, j)
  {
    if j > 0 {
      DifferencesSum(x, y, j - 1);
    }
  }

  /** What each arc passes on, before teleport and damping. */
  function Passings(net: Network<real>, d: seq<real>): (e: seq<real>)
    requires WellFormed(net, |d|)
    ensures |e| == |net.arcs|
  {
    seq(|net.arcs|, j requires 0 <= j < |net.arcs| => d[net.arcs[j].source] * Share(net, |d|, j))
  }

  function Passed(net: Network<real>, d: seq<real>): real
    requires WellFormed(net, |d|)
  {
    Sum(Passings(net, d), |net.arcs|)
  }

  lemma CarriedGap(hub: nat -> real, net: Network<real>, x: seq<real>, y: seq<real>)
    requires |x| == |y| && Usable(net, hub, |x|)
    ensures Gap(AllCarried(hub, net, x), AllCarried(hub, net, y), |net.arcs|)
      <= (1.0 - net.t) * Passed(net, Differences(x, y))
  {
    hide CarriedBy, Share, Sum, Gap;
    var a, b, m := AllCarried(hub, net, x), AllCarried(hub, net, y), |net.arcs|;
    var c, e := Differences(a, b), Passings(net, Differences(x, y));
    forall j | 0 <= j < m ensures c[j] <= (1.0 - net.t) * e[j] {
      CarriedDifference(hub, net, x, y, j);
    }
    ScaledSum(1.0 - net.t, c, e, m);
    DifferencesSum(a, b, m);
  }

  lemma CarriedSum(hub: nat -> real, net: Network<real>, x: seq<real>)
    requires Usable(net, hub, |x|) && Nonnegative(x)
    ensures Nonnegative(AllCarried(hub, net, x))
    ensures Sum(AllCarried(hub, net, x), |net.arcs|) <= (1.0 - net.t) * Passed(net, x)
    ensures (forall v :: 0 <= v < |x| ==> net.damping[v] == 1.0) ==>
      Sum(AllCarried(hub, net, x), |net.arcs|) == (1.0 - net.t) * Passed(net, x)
  {
    hide CarriedBy, Share, WeightSum, Sum;
    var c, e, m := AllCarried(hub, net, x), Passings(net, x), |net.arcs|;
    forall j | 0 <= j < m
      ensures 0.0 <= c[j] <= (1.0 - net.t) * e[j]
      ensures net.damping[net.arcs[j].target] == 1.0 ==> c[j] == (1.0 - net.t) * e[j]
    {
      CarriedMass(hub, net, x, j);
    }
    ScaledSum(1.0 - net.t, c, e, m);
  }

  // ---------- regrouping arcs by source ----------

  /** How much of its total the first `j` arcs of source `s` account for. */
  function Part(hub: nat -> real, net: Network<real>, n: nat, j: nat, s: nat): real
    requires WellFormed(net, n) && j <= |net.arcs| && s < n
  {
    if net.totals[s] == 0.0 then 0.0 else WeightSum(Reals(hub), net.arcs, j, s) / net.totals[s]
  }

  function Grouped(hub: nat -> real, net: Network<real>, d: seq<real>, j: nat, s: nat): real
    requires WellFormed(net, |d|) && j <= |net.arcs| && s <= |d|
  {
    if s == 0 then 0.0
    else Grouped(hub, net, d, j, s - 1) + d[s - 1] * Part(hub, net, |d|, j, s - 1)
  }

  lemma PartStep(hub: nat -> real, net: Network<real>, n: nat, j: nat, s: nat)
    requires WellFormed(net, n) && 0 < j <= |net.arcs| && s < n
    ensures Part(hub, net, n, j, s)
      == Part(hub, net, n, j - 1, s) + (if net.arcs[j - 1].source == s then Share(net, n, j - 1) else 0.0)
  {
    if net.arcs[j - 1].source == s && net.totals[s] != 0.0 {
      QuotientSum(WeightSum(Reals(hub), net.arcs, j - 1, s), net.arcs[j - 1].weight, net.totals[s]);
    }
  }

  lemma QuotientSum(a: real, b: real, c: real)
    requires c != 0.0
    ensures (a + b) / c == a / c + b / c
  {
  }

  lemma {:induction false} GroupedStep(hub: nat -> real, net: Network<real>, d: seq<real>, j: nat, s: nat)
    requires WellFormed(net, |d|) && 0 < j <= |net.arcs| && s <= |d|
    ensures var a := net.arcs[j - 1];
      Grouped(hub, net, d, j, s)
      == Grouped(hub, net, d, j - 1, s) + (if a.source < s then d[a.source] * Share(net, |d|, j - 1) else 0.0)
  {
    hide Part, Share;
    if s > 0 {
      GroupedStep(hub, net, d, j, s - 1);
      PartStep(hub, net, |d|, j, s - 1);
      Distribute(d[s - 1], Part(hub, net, |d|, j - 1, s - 1), Share(net, |d|, j - 1));
    }
  }

  lemma {:induction false} GroupedStart(hub: nat -> real, net: Network<real>, d: seq<real>, s: nat)
    requires WellFormed(net, |d|) && s <= |d|
    ensures Grouped(hub, net, d, 0, s) == 0.0
  {
    if s > 0 {
      GroupedStart(hub, net, d, s - 1);
      assert Part(hub, net, |d|, 0, s - 1) == 0.0;
    }
  }

  /** Summing over arcs is summing over sources. */
  lemma {:induction false} PassedIsGrouped(hub: nat -> real, net: Network<real>, d: seq<real>, j: nat)
    requires WellFormed(net, |d|) && j <= |net.arcs|
    ensures Sum(Passings(net, d), j) == Grouped(hub, net, d, j, |d|)
  {
    hide Grouped, Share;
    if j == 0 {
      GroupedStart(hub, net, d, |d|);
    } else {
      PassedIsGrouped(hub, net, d, j - 1);
      GroupedStep(hub, net, d, j, |d|);
      var a := net.arcs[j - 1];
      assert a.source < |d| && Passings(net, d)[j - 1] == d[a.source] * Share(net, |d|, j - 1);
    }
  }

  /** A source passes on at most what it has, and exactly that when it has out-edges. */
  lemma {:induction false} GroupedBound(hub: nat -> real, net: Network<real>, d: seq<real>, s: nat)
    requires Usable(net, hub, |d|) && Nonnegative(d) && s <= |d|
    ensures Grouped(hub, net, d, |net.arcs|, s) <= Sum(d, s)
    ensures (forall u :: 0 <= u < s ==> net.totals[u] != 0.0) ==> Grouped(hub, net, d, |net.arcs|, s) == Sum(d, s)
  {
    if s > 0 {
      GroupedBound(hub, net, d, s - 1);
      assert net.totals[s - 1] != 0.0 ==> Part(hub, net, |d|, |net.arcs|, s - 1) == 1.0;
    }
  }

  lemma PassedBound(hub: nat -> real, net: Network<real>, d: seq<real>)
    requires Usable(net, hub, |d|) && Nonnegative(d)
    ensures Passed(net, d) <= Mass(d)
    ensures (forall u :: 0 <= u < |d| ==> net.totals[u] != 0.0) ==> Passed(net, d) == Mass(d)
  {
    PassedIsGrouped(hub, net, d, |net.arcs|);
    GroupedBound(hub, net, d, |d|);
  }

  // ---------- contraction ----------

  lemma {:induction false} ShiftKeepsGap(x: seq<real>, y: seq<real>, x': seq<real>, y': seq<real>, j: nat)
    requires |x| == |y| == |x'| == |y'| && j <= |x|
    requires forall i :: 0 <= i < |x| ==> x'[i] - y'[i] == x[i] - y[i]
    ensures Gap(x', y', j) == Gap(x, y, j)
  {
    if j > 0 {
      ShiftKeepsGap(x, y, x', y', j - 1);
    }
  }

  lemma NextSlot<S>(A: Arith<S>, net: Network<S>, x: seq<S>, v: nat)
    requires WellFormed(net, |x|) && v < |x|
    ensures Next(A, net, x)[v] == (A.add)(Spread(A, net, x, |net.arcs|)[v], (A.mul)(net.t, net.teleport[v]))
  {
  }

  lemma RealAddMul(hub: nat -> real, p: real, t: real, v: real)
    ensures (Reals(hub).add)(p, (Reals(hub).mul)(t, v)) == p + t * v
  {
  }

  lemma NextAccumulates(hub: nat -> real, net: Network<real>, x: seq<real>, v: nat)
    requires WellFormed(net, |x|) && v < |x|
    ensures Next(Reals(hub), net, x)[v]
      == (Reals(hub).add)(Accumulate(net.arcs, AllCarried(hub, net, x), |x|, |net.arcs|)[v],
                          (Reals(hub).mul)(net.t, net.teleport[v]))
  {
    hide Reals, Next, Spread, Accumulate, AllCarried;
    NextSlot(Reals(hub), net, x, v);
    SpreadAccumulates(hub, net, x, |net.arcs|);
  }

  lemma NextIsShifted(hub: nat -> real, net: Network<real>, x: seq<real>, v: nat)
    requires WellFormed(net, |x|) && v < |x|
    ensures Next(Reals(hub), net, x)[v]
      == Accumulate(net.arcs, AllCarried(hub, net, x), |x|, |net.arcs|)[v] + net.t * net.teleport[v]
  {
    hide Reals, Next, Spread, Accumulate, AllCarried;
    NextAccumulates(hub, net, x, v);
    RealAddMul(hub, Accumulate(net.arcs, AllCarried(hub, net, x), |x|, |net.arcs|)[v], net.t, net.teleport[v]);
  }

  lemma NextGap(hub: nat -> real, net: Network<real>, x: seq<real>, y: seq<real>)
    requires |x| == |y| && WellFormed(net, |x|)
    ensures L1(Next(Reals(hub), net, x), Next(Reals(hub), net, y))
      <= Gap(AllCarried(hub, net, x), AllCarried(hub, net, y), |net.arcs|)
  {
    hide Reals, Next, AllCarried, Accumulate;
    var m, a, b := |net.arcs|, AllCarried(hub, net, x), AllCarried(hub, net, y);
    var p, q := Accumulate(net.arcs, a, |x|, m), Accumulate(net.arcs, b, |x|, m);
    var p', q' := Next(Reals(hub), net, x), Next(Reals(hub), net, y);
    forall v | 0 <= v < |x| ensures p'[v] - q'[v] == p[v] - q[v] {
      NextIsShifted(hub, net, x, v);
      NextIsShifted(hub, net, y, v);
    }
    ShiftKeepsGap(p, q, p', q', |x|);
    AccumulateGap(net.arcs, a, b, |x|, m);
  }

  /** One iteration brings any two score vectors closer by the factor `1 - t`, whatever their signs. */
  lemma NextContracts(hub: nat -> real, net: Network<real>, x: seq<real>, y: seq<real>)
    requires |x| == |y| && Usable(net, hub, |x|)
    ensures L1(Next(Reals(hub), net, x), Next(Reals(hub), net, y)) <= (1.0 - net.t) * L1(x, y)
  {
    hide Reals, Next, Gap, Sum, AllCarried, Passed, Differences;
    NextGap(hub, net, x, y);
    CarriedGap(hub, net, x, y);
    PassedBound(hub, net, Differences(x, y));
    DifferencesSum(x, y, |x|);
    ProductOrder(1.0 - net.t, Passed(net, Differences(x, y)), L1(x, y));
  }

  // ---------- mass ----------

  lemma {:induction false} SumWithTeleport(p: seq<real>, tele: seq<real>, t: real, r: seq<real>, j: nat)
    requires |p| == |tele| == |r| && j <= |p|
    requires forall i :: 0 <= i < |p| ==> r[i] == p[i] + t * tele[i]
    ensures Sum(r, j) == Sum(p, j) + t * Sum(tele, j)
  {
    if j > 0 {
      SumWithTeleport(p, tele, t, r, j - 1);
      Distribute(t, Sum(tele, j - 1), tele[j - 1]);
    }
  }

  lemma NonnegativeSum(p: real, t: real, v: real)
    requires 0.0 <= p && 0.0 <= t && 0.0 <= v
    ensures 0.0 <= p + t * v
  {
    assert t * v >= 0.0;
  }

  /** The mass of the next vector, exactly. */
  lemma NextMass(hub: nat -> real, net: Network<real>, x: seq<real>)
    requires Usable(net, hub, |x|) && Nonnegative(x) && Nonnegative(net.teleport)
    ensures Nonnegative(Next(Reals(hub), net, x))
    ensures Mass(Next(Reals(hub), net, x))
      == Sum(AllCarried(hub, net, x), |net.arcs|) + net.t * Mass(net.teleport)
  {
    hide Reals, Next, AllCarried, Accumulate, Passed;
    var m, c := |net.arcs|, AllCarried(hub, net, x);
    var p, next := Accumulate(net.arcs, c, |x|, m), Next(Reals(hub), net, x);
    CarriedSum(hub, net, x);
    AccumulateMass(net.arcs, c, |x|, m);
    forall v | 0 <= v < |x|
      ensures next[v] == p[v] + net.t * net.teleport[v] && next[v] >= 0.0
    {
      NextIsShifted(hub, net, x, v);
      NonnegativeSum(p[v], net.t, net.teleport[v]);
    }
    SumWithTeleport(p, net.teleport, net.t, next, |x|);
  }

  /**
    One iteration keeps scores nonnegative and the mass at most one; without
    dangling nodes and without damping it keeps the mass at exactly one.
   */
  lemma NextKeepsMass(hub: nat -> real, net: Network<real>, x: seq<real>)
    requires Usable(net, hub, |x|) && Nonnegative(x) && Mass(x) <= 1.0
    requires Nonnegative(net.teleport) && Mass(net.teleport) <= 1.0
    ensures var next := Next(Reals(hub), net, x);
      && Nonnegative(next) && Mass(next) <= 1.0
      && (Mass(x) == 1.0 && Mass(net.teleport) == 1.0
          && (forall s :: 0 <= s < |x| ==> net.totals[s] != 0.0 && net.damping[s] == 1.0)
          ==> Mass(next) == 1.0)
  {
    hide Reals, Next, AllCarried, Passed;
    NextMass(hub, net, x);
    CarriedSum(hub, net, x);
    PassedBound(hub, net, x);
    Mixture(net.t, Sum(AllCarried(hub, net, x), |net.arcs|), Passed(net, x), Mass(net.teleport));
  }

  lemma Mixture(t: real, carried: real, passed: real, teleport: real)
    requires 0.0 <= t <= 1.0 && carried <= (1.0 - t) * passed && passed <= 1.0 && teleport <= 1.0
    ensures carried + t * teleport <= 1.0
    ensures carried == (1.0 - t) * passed && passed == 1.0 && teleport == 1.0 ==> carried + t * teleport == 1.0
  {
    var u := 1.0 - t;
    var a := u * passed;
    ProductOrder(u, passed, 1.0);
    assert a <= u;
    ProductOrder(t, teleport, 1.0);
    assert t * teleport <= t;
  }
}
