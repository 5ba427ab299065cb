/** The histogram quantile estimate of lib/admin/admin-metrics.js for one label series, over exact reals. */
module Quantiles {
  import opened Reals

  datatype Bound = Finite(le: real) | Inf

  /** One exported value: a bucket line or not, passing the label filter or not. */
  datatype Item = Item(isBucket: bool, matches: bool, bound: Bound, value: nat)

  datatype Bucket = Bucket(le: real, cum: nat)

  predicate Sorted(bs: seq<Bucket>) {
    forall i, j :: 0 <= i < j < |bs| ==> bs[i].le <= bs[j].le
  }

  // ---------------------------------------------------------------- the estimate

  predicate Taken(x: Item) {
    x.isBucket && x.matches
  }

  function Collected(items: seq<Item>): seq<Bucket> {
    if items == [] then []
    else
      var x := items[|items| - 1];
      Collected(items[..|items| - 1]) + (if Taken(x) && x.bound.Finite? then [Bucket(x.bound.le, x.value)] else [])
  }

  /** The last +Inf line wins. */
  function Total(items: seq<Item>): nat {
    if items == [] then 0
    else
      var x := items[|items| - 1];
      if Taken(x) && x.bound.Inf? then x.value else Total(items[..|items| - 1])
  }

  function Insert(bs: seq<Bucket>, b: Bucket): seq<Bucket> {
    if bs == [] || b.le < bs[0].le then [b] + bs else [bs[0]] + Insert(bs[1..], b)
  }

  /** `Array.prototype.sort` by bound. */
  function SortByLe(bs: seq<Bucket>): seq<Bucket> {
    if bs == [] then [] else Insert(SortByLe(bs[..|bs| - 1]), bs[|bs| - 1])
  }

  lemma {:induction false} InsertPermutes(bs: seq<Bucket>, b: Bucket)
    ensures multiset(Insert(bs, b)) == multiset(bs) + multiset{b}
  {
    if bs != [] && b.le >= bs[0].le {
      InsertPermutes(bs[1..], b);
      assert bs == [bs[0]] + bs[1..];
    }
  }

  predicate AtLeast(bs: seq<Bucket>, low: real) {
    forall i :: 0 <= i < |bs| ==> low <= bs[i].le
  }

  lemma SortedCons(b: Bucket, rest: seq<Bucket>)
    requires Sorted(rest) && AtLeast(rest, b.le)
    ensures Sorted([b] + rest)
  {
  }

  lemma {:induction false} InsertAtLeast(bs: seq<Bucket>, b: Bucket, low: real)
    requires low <= b.le && AtLeast(bs, low)
    ensures AtLeast(Insert(bs, b), low)
  {
    if bs != [] && b.le >= bs[0].le {
      InsertAtLeast(bs[1..], b, low);
      assert AtLeast([bs[0]] + Insert(bs[1..], b), low);
    }
  }

  lemma {:induction false} InsertSorted(bs: seq<Bucket>, b: Bucket)
    requires Sorted(bs)
    ensures Sorted(Insert(bs, b))
  {
    if bs == [] || b.le < bs[0].le {
      SortedCons(b, bs);
    } else {
      InsertSorted(bs[1..], b);
      InsertAtLeast(bs[1..], b, bs[0].le);
      SortedCons(bs[0], Insert(bs[1..], b));
    }
  }

  lemma {:induction false} SortByLeSorts(bs: seq<Bucket>)
    ensures Sorted(SortByLe(bs)) && multiset(SortByLe(bs)) == multiset(bs)
  {
    if bs != [] {
      var init, b := bs[..|bs| - 1], bs[|bs| - 1];
      SortByLeSorts(init);
      InsertPermutes(SortByLe(init), b);
      InsertSorted(SortByLe(init), b);
      assert bs == init + [b];
    }
  }

  /** The first bucket the target fits in, if any. */
  function FirstFit(bs: seq<Bucket>, target: real): (i: nat)
    ensures i <= |bs| && (i < |bs| ==> target <= bs[i].cum as real)
    ensures forall j :: 0 <= j < i ==> target > bs[j].cum as real
  {
    if bs == [] || target <= bs[0].cum as real then 0 else 1 + FirstFit(bs[1..], target)
  }

  /** The point a fraction `f` of the way from `a` to `b`. */
  function Lerp(a: real, b: real, f: real): real {
    a + Times(f, b - a)
  }

  function Interpolate(lower: Bucket, upper: Bucket, target: real): real {
    var inBucket := upper.cum as real - lower.cum as real;
    if inBucket <= 0.0 then upper.le
    else Lerp(lower.le, upper.le, (target - lower.cum as real) / inBucket)
  }

  function EstimateAt(bs: seq<Bucket>, target: real): real
    requires bs != []
  {
    var i := FirstFit(bs, target);
    if i == 0 then bs[0].le
    else if i == |bs| then bs[|bs| - 1].le
    else Interpolate(bs[i - 1], bs[i], target)
  }

  /** The estimate before scaling and rounding. */
  function Estimate(bs: seq<Bucket>, total: nat, q: real): real {
    if total == 0 || bs == [] then 0.0 else EstimateAt(bs, Target(q, total))
  }

  /** The rank, not rounded, that the quantile asks for. */
  function Target(q: real, total: nat): real {
    Times(q, total as real)
  }

  /** The estimate in the caller's unit, as a whole number. */
  function Report(v: real, scale: real): int {
    Round(Times(v, scale))
  }

  /** `Math.round` */
  function Round(x: real): int {
    (x + 0.5).Floor
  }

  method CollectBuckets(items: seq<Item>) returns (buckets: seq<Bucket>, count: nat)
    ensures buckets == Collected(items) && count == Total(items)
  {
    buckets, count := [], 0;
    for k := 0 to |items|
      invariant buckets == Collected(items[..k]) && count == Total(items[..k])
    {
      var v := items[k];
      assert items[..k + 1][..k] == items[..k];
      if v.matches && v.isBucket {
        match v.bound
        case Inf => count := v.value;
        case Finite(le) => buckets := buckets + [Bucket(le, v.value)];
      }
    }
    assert items[..|items|] == items;
  }

  method ScanBuckets(buckets: seq<Bucket>, target: real) returns (estimate: real)
    requires buckets != []
    ensures estimate == EstimateAt(buckets, target)
  {
    if target <= buckets[0].cum as real {
      FirstFitIs(buckets, target, 0);
      return buckets[0].le;
    }
    for i := 1 to |buckets|
      invariant forall j :: 0 <= j < i ==> target > buckets[j].cum as real
    {
      if target <= buckets[i].cum as real {
        FirstFitIs(buckets, target, i);
        return Interpolate(buckets[i - 1], buckets[i], target);
      }
    }
    FirstFitIs(buckets, target, |buckets|);
    estimate := buckets[|buckets| - 1].le;
  }

  method EstimateQuantile(items: seq<Item>, q: real, scale: real) returns (r: int)
    ensures r == Report(Estimate(SortByLe(Collected(items)), Total(items), q), scale)
    ensures Total(items) == 0 || Collected(items) == [] ==> r == 0
  {
    var buckets, count := CollectBuckets(items);
    var sorted := SortByLe(buckets);
    SortByLeSorts(buckets);
    assert |sorted| == |multiset(sorted)| == |multiset(buckets)| == |buckets|;
    TimesZero(0.0, scale);
    if count == 0 || |buckets| == 0 {
      return Report(0.0, scale);
    }
    var estimate := ScanBuckets(sorted, Target(q, count));
    r := Report(estimate, scale);
  }

  lemma FirstFitIs(bs: seq<Bucket>, target: real, i: nat)
    requires i <= |bs| && (i < |bs| ==> target <= bs[i].cum as real)
    requires forall j :: 0 <= j < i ==> target > bs[j].cum as real
    ensures FirstFit(bs, target) == i
  {
    var k := FirstFit(bs, target);
    assert !(k < i) && !(i < k);
  }

  // ---------------------------------------------------------------- histograms of samples

  function CountLe(samples: seq<real>, x: real): nat {
    if samples == [] then 0 else (if samples[0] <= x then 1 else 0) + CountLe(samples[1..], x)
  }

  function CountLt(samples: seq<real>, x: real): nat {
    if samples == [] then 0 else (if samples[0] < x then 1 else 0) + CountLt(samples[1..], x)
  }

  predicate Increasing(bounds: seq<real>) {
    forall i, j :: 0 <= i < j < |bounds| ==> bounds[i] < bounds[j]
  }

  /** The cumulative buckets an exporter keeps for these samples. */
  function Histogram(samples: seq<real>, bounds: seq<real>): (r: seq<Bucket>)
    ensures |r| == |bounds|
  {
    seq(|bounds|, i requires 0 <= i < |bounds| => Bucket(bounds[i], CountLe(samples, bounds[i])))
  }

  /** `x` stands at position ceil(q n) of the n samples in ascending order. */
  predicate NearestRank(samples: seq<real>, q: real, x: real) {
    CountLt(samples, x) as real < Times(q, |samples| as real) <= CountLe(samples, x) as real
  }

  /** Bucket `i` covers (bounds[i-1], bounds[i]], and the first everything up to its bound. */
  predicate InBucket(bounds: seq<real>, i: nat, v: real)
    requires i < |bounds|
  {
    v <= bounds[i] && (i > 0 ==> bounds[i - 1] < v)
  }

  lemma {:induction false} CountMonotone(samples: seq<real>, x: real, y: real)
    ensures x <= y ==> CountLe(samples, x) <= CountLe(samples, y)
    ensures x < y ==> CountLe(samples, x) <= CountLt(samples, y)
    ensures CountLt(samples, x) <= CountLe(samples, x) <= |samples|
  {
    if samples != [] {
      CountMonotone(samples[1..], x, y);
    }
  }

  /** Division undoes multiplication, and keeps order. */
  lemma Ratio(x: real, y: real, w: real)
    requires w > 0.0
    ensures x > 0.0 ==> x / w > 0.0
    ensures x <= w ==> x / w <= 1.0
    ensures x <= y ==> x / w <= y / w
  {
    var f, g := x / w, y / w;
    assert Times(f, w) == x && Times(g, w) == y;
    TimesSign(f, w);
    TimesSign(1.0 - f, w);
    TimesSign(g - f, w);
    assert Times(1.0 - f, w) == w - x && Times(g - f, w) == y - x;
  }

  lemma Between(lower: real, upper: real, f: real)
    requires lower < upper && 0.0 < f <= 1.0
    ensures lower < Lerp(lower, upper, f) <= upper
  {
    var w := upper - lower;
    TimesSign(f, w);
    TimesSign(1.0 - f, w);
    assert Times(1.0 - f, w) == w - Times(f, w);
  }

  /** The zero-width branch of the interpolation is never taken: the scan only stops where the count grows. */
  lemma FitHasWidth(bs: seq<Bucket>, target: real)
    ensures var i := FirstFit(bs, target); 0 < i < |bs| ==> bs[i - 1].cum < bs[i].cum
  {
    var i := FirstFit(bs, target);
    if 0 < i < |bs| {
      assert bs[i - 1].cum as real < target <= bs[i].cum as real;
    }
  }

  lemma InterpolateBetween(lower: Bucket, upper: Bucket, target: real)
    requires lower.le < upper.le && lower.cum as real < target <= upper.cum as real
    ensures lower.le < Interpolate(lower, upper, target) <= upper.le
  {
    var w := upper.cum as real - lower.cum as real;
    var f := (target - lower.cum as real) / w;
    Ratio(target - lower.cum as real, w, w);
    Between(lower.le, upper.le, f);
  }

  predicate StrictlySorted(bs: seq<Bucket>) {
    forall i, j :: 0 <= i < j < |bs| ==> bs[i].le < bs[j].le
  }

  /** The estimate for a target lies in the bucket the target fits in. */
  lemma EstimateInFit(bs: seq<Bucket>, target: real)
    requires bs != [] && StrictlySorted(bs)
    ensures var i := FirstFit(bs, target);
            var v := EstimateAt(bs, target);
            && (i == 0 ==> v == bs[0].le)
            && (0 < i < |bs| ==> bs[i - 1].le < v <= bs[i].le)
            && (i == |bs| ==> v == bs[|bs| - 1].le)
  {
    var i := FirstFit(bs, target);
    if 0 < i < |bs| {
      InterpolateBetween(bs[i - 1], bs[i], target);
    }
  }

  lemma SampleBucketIsFit(samples: seq<real>, bounds: seq<real>, target: real, x: real, i: nat)
    requires bounds != [] && Increasing(bounds)
    requires CountLt(samples, x) as real < target <= CountLe(samples, x) as real
    requires i <= |bounds| && (if i < |bounds| then InBucket(bounds, i, x) else x > bounds[|bounds| - 1])
    ensures FirstFit(Histogram(samples, bounds), target) == i
  {
    var bs := Histogram(samples, bounds);
    forall j | 0 <= j < i ensures target > bs[j].cum as real {
      assert bounds[j] < x;
      CountMonotone(samples, bounds[j], x);
    }
    if i < |bounds| { CountMonotone(samples, x, bounds[i]); }
    FirstFitIs(bs, target, i);
  }

  /**
   * The estimate falls in the same bucket as the true nearest-rank sample, on the bound itself in the first
   * bucket, and on the last bound when that sample lies beyond every bound.
   */
  lemma EstimateInSampleBucket(samples: seq<real>, bounds: seq<real>, q: real, x: real, i: nat)
    requires bounds != [] && Increasing(bounds) && samples != [] && NearestRank(samples, q, x)
    requires i <= |bounds| && (if i < |bounds| then InBucket(bounds, i, x) else x > bounds[|bounds| - 1])
    ensures var v := Estimate(Histogram(samples, bounds), |samples|, q);
            && (i < |bounds| ==> InBucket(bounds, i, v))
            && (i == 0 ==> v == bounds[0])
            && (i == |bounds| ==> v == bounds[|bounds| - 1])
  {
    var target := Target(q, |samples|);
    SampleBucketIsFit(samples, bounds, target, x, i);
    EstimateInFit(Histogram(samples, bounds), target);
  }

  // ---------------------------------------------------------------- the sample a quantile asks for

  lemma TailMember(samples: seq<real>, y: real)
    requires samples != []
    ensures y in samples <==> y == samples[0] || y in samples[1..]
  {
    assert samples == [samples[0]] + samples[1..];
  }

  lemma {:induction false} CountSplit(samples: seq<real>, x: real)
    ensures CountLt(samples, x) < CountLe(samples, x) <==> x in samples
  {
    if samples != [] {
      CountSplit(samples[1..], x);
      CountMonotone(samples[1..], x, x);
      TailMember(samples, x);
    }
  }

  lemma {:induction false} CountAll(samples: seq<real>, x: real)
    requires forall y :: y in samples ==> y <= x
    ensures CountLe(samples, x) == |samples|
  {
    if samples != [] {
      forall y | y in samples[1..] ensures y <= x { TailMember(samples, y); }
      CountAll(samples[1..], x);
      TailMember(samples, samples[0]);
      assert samples[0] <= x;
    }
  }

  lemma {:induction false} CountGap(samples: seq<real>, y: real, x: real)
    requires y < x && forall z :: z in samples && z < x ==> z <= y
    ensures CountLe(samples, y) == CountLt(samples, x)
  {
    if samples != [] {
      forall z | z in samples[1..] && z < x ensures z <= y { TailMember(samples, z); }
      CountGap(samples[1..], y, x);
      TailMember(samples, samples[0]);
      assert samples[0] <= y <==> samples[0] < x;
    }
  }

  lemma {:induction false} Greatest(samples: seq<real>) returns (x: real)
    requires samples != []
    ensures x in samples && forall y :: y in samples ==> y <= x
  {
    x := samples[0];
    if |samples| > 1 {
      var y := Greatest(samples[1..]);
      if y > x { x := y; }
    }
    assert samples == [samples[0]] + samples[1..];
  }

  /** The sample just below `x`. */
  lemma {:induction false} Below(samples: seq<real>, x: real) returns (y: real)
    requires CountLt(samples, x) > 0
    ensures y in samples && y < x && forall z :: z in samples && z < x ==> z <= y
  {
    assert samples == [samples[0]] + samples[1..];
    if CountLt(samples[1..], x) > 0 {
      y := Below(samples[1..], x);
      if y < samples[0] < x { y := samples[0]; }
    } else {
      y := samples[0];
      NoneBelow(samples[1..], x);
    }
  }

  lemma {:induction false} NoneBelow(samples: seq<real>, x: real)
    requires CountLt(samples, x) == 0
    ensures forall z :: z in samples ==> z >= x
  {
    if samples != [] {
      NoneBelow(samples[1..], x);
      assert samples == [samples[0]] + samples[1..];
    }
  }

  /** Going down from a sample at or above the target rank ends at the one that has it. */
  lemma {:induction false} DescendToRank(samples: seq<real>, target: real, x: real) returns (y: real)
    requires x in samples && 0.0 < target <= CountLe(samples, x) as real
    ensures y in samples && CountLt(samples, y) as real < target <= CountLe(samples, y) as real
    decreases CountLe(samples, x)
  {
    if CountLt(samples, x) as real < target {
      y := x;
    } else {
      var z := Below(samples, x);
      CountGap(samples, z, x);
      CountSplit(samples, x);
      CountMonotone(samples, x, x);
      y := DescendToRank(samples, target, z);
    }
  }

  lemma TargetRange(q: real, n: nat)
    requires n > 0
    ensures 0.0 < Target(q, n) <==> 0.0 < q
    ensures Target(q, n) <= n as real <==> q <= 1.0
  {
    TimesSign(q, n as real);
    TimesZero(q, n as real);
    TimesSign(q - 1.0, n as real);
    TimesZero(q - 1.0, n as real);
    assert Times(q - 1.0, n as real) == Times(q, n as real) - n as real;
  }

  /** The nearest-rank sample is one of the samples, there is only one, and it exists exactly for 0 < q <= 1. */
  lemma NearestRankExists(samples: seq<real>, q: real)
    requires samples != []
    ensures (exists x :: NearestRank(samples, q, x)) <==> 0.0 < q <= 1.0
    ensures forall x :: NearestRank(samples, q, x) ==> x in samples
    ensures forall x, y :: NearestRank(samples, q, x) && NearestRank(samples, q, y) ==> x == y
  {
    TargetRange(q, |samples|);
    forall x | NearestRank(samples, q, x) ensures x in samples && 0.0 < q <= 1.0 {
      CountSplit(samples, x);
      CountMonotone(samples, x, x);
    }
    forall x, y | NearestRank(samples, q, x) && NearestRank(samples, q, y) ensures x == y {
      CountMonotone(samples, x, y);
      CountMonotone(samples, y, x);
    }
    if 0.0 < q <= 1.0 {
      var top := Greatest(samples);
      CountAll(samples, top);
      var x := DescendToRank(samples, Target(q, |samples|), top);
      assert NearestRank(samples, q, x);
    }
  }

  /** Outside that range the answer is the first bound from below and the last one from above. */
  lemma OutsideQuantiles(samples: seq<real>, bounds: seq<real>, q: real)
    requires bounds != [] && samples != []
    ensures q <= 0.0 ==> Estimate(Histogram(samples, bounds), |samples|, q) == bounds[0]
    ensures q > 1.0 ==> Estimate(Histogram(samples, bounds), |samples|, q) == bounds[|bounds| - 1]
  {
    var bs, target := Histogram(samples, bounds), Target(q, |samples|);
    TargetRange(q, |samples|);
    if q <= 0.0 { FirstFitIs(bs, target, 0); }
    if q > 1.0 {
      forall j | 0 <= j < |bs| ensures target > bs[j].cum as real { CountMonotone(samples, bounds[j], bounds[j]); }
      FirstFitIs(bs, target, |bs|);
    }
  }

  // ---------------------------------------------------------------- the interpolation and the rounding

  lemma Reordered(f: real, w: real, h: real)
    ensures Times(Times(f, h), w) == Times(Times(f, w), h)
  {
  }

  lemma InterpolateLinear(lower: Bucket, upper: Bucket, target: real)
    requires lower.cum < upper.cum
    ensures Times(Interpolate(lower, upper, target) - lower.le, upper.cum as real - lower.cum as real)
            == Times(target - lower.cum as real, upper.le - lower.le)
  {
    var w := upper.cum as real - lower.cum as real;
    var f := (target - lower.cum as real) / w;
    assert Times(f, w) == target - lower.cum as real;
    Reordered(f, w, upper.le - lower.le);
  }

  lemma EstimateIsInterpolated(samples: seq<real>, bounds: seq<real>, q: real, x: real, i: nat)
    requires Increasing(bounds) && samples != [] && NearestRank(samples, q, x)
    requires 0 < i < |bounds| && InBucket(bounds, i, x)
    ensures var lower, upper := Bucket(bounds[i - 1], CountLe(samples, bounds[i - 1])), Bucket(bounds[i], CountLe(samples, bounds[i]));
            && lower.cum < upper.cum
            && Estimate(Histogram(samples, bounds), |samples|, q) == Interpolate(lower, upper, Times(q, |samples| as real))
  {
    var bs, target := Histogram(samples, bounds), Target(q, |samples|);
    SampleBucketIsFit(samples, bounds, target, x, i);
    hide Interpolate, CountLe, CountLt;
    FitHasWidth(bs, target);
  }

  /** Between the bounds of the sample's bucket the estimate divides the bucket's width as the target divides its count. */
  lemma EstimateInterpolates(samples: seq<real>, bounds: seq<real>, q: real, x: real, i: nat)
    requires Increasing(bounds) && samples != [] && NearestRank(samples, q, x)
    requires 0 < i < |bounds| && InBucket(bounds, i, x)
    ensures var v := Estimate(Histogram(samples, bounds), |samples|, q);
            var below, upTo := CountLe(samples, bounds[i - 1]) as real, CountLe(samples, bounds[i]) as real;
            Times(v - bounds[i - 1], upTo - below) == Times(Times(q, |samples| as real) - below, bounds[i] - bounds[i - 1])
  {
    hide *;
    EstimateIsInterpolated(samples, bounds, q, x, i);
    InterpolateLinear(Bucket(bounds[i - 1], CountLe(samples, bounds[i - 1])), Bucket(bounds[i], CountLe(samples, bounds[i])),
                      Times(q, |samples| as real));
  }

  /** The answer is the whole number nearest to the scaled estimate, the greater of two. */
  lemma ReportNearest(v: real, scale: real)
    ensures Report(v, scale) as real - 0.5 <= Times(v, scale) < Report(v, scale) as real + 0.5
  {
  }

  lemma FirstFitMonotone(bs: seq<Bucket>, t1: real, t2: real)
    requires t1 <= t2
    ensures FirstFit(bs, t1) <= FirstFit(bs, t2)
  {
    var i, j := FirstFit(bs, t2), FirstFit(bs, t1);
    assert !(i < j);
  }

  lemma InterpolateMonotone(lower: Bucket, upper: Bucket, t1: real, t2: real)
    requires lower.le <= upper.le && lower.cum < upper.cum && t1 <= t2
    ensures Interpolate(lower, upper, t1) <= Interpolate(lower, upper, t2)
  {
    var w := upper.cum as real - lower.cum as real;
    var f1, f2 := (t1 - lower.cum as real) / w, (t2 - lower.cum as real) / w;
    Ratio(t1 - lower.cum as real, t2 - lower.cum as real, w);
    TimesMonotone(f1, f2, upper.le - lower.le);
  }

  lemma EstimateAtMonotone(bs: seq<Bucket>, t1: real, t2: real)
    requires bs != [] && StrictlySorted(bs) && t1 <= t2
    ensures EstimateAt(bs, t1) <= EstimateAt(bs, t2)
  {
    FirstFitMonotone(bs, t1, t2);
    EstimateInFit(bs, t1);
    EstimateInFit(bs, t2);
    var i := FirstFit(bs, t1);
    if i == FirstFit(bs, t2) && 0 < i < |bs| {
      FitHasWidth(bs, t1);
      InterpolateMonotone(bs[i - 1], bs[i], t1, t2);
    }
  }

  /** A higher quantile never gets a lower estimate, also after scaling and rounding. */
  lemma EstimateMonotone(bs: seq<Bucket>, total: nat, q1: real, q2: real, scale: real)
    requires q1 <= q2 && scale >= 0.0 && StrictlySorted(bs)
    ensures Estimate(bs, total, q1) <= Estimate(bs, total, q2)
    ensures Report(Estimate(bs, total, q1), scale) <= Report(Estimate(bs, total, q2), scale)
  {
    if total > 0 && bs != [] {
      TimesMonotone(q1, q2, total as real);
      EstimateAtMonotone(bs, Target(q1, total), Target(q2, total));
    }
    ReportMonotone(Estimate(bs, total, q1), Estimate(bs, total, q2), scale);
  }

  lemma ReportMonotone(v1: real, v2: real, scale: real)
    requires v1 <= v2 && scale >= 0.0
    ensures Report(v1, scale) <= Report(v2, scale)
  {
    TimesMonotone(v1, v2, scale);
  }

  // ---------------------------------------------------------------- export order does not matter

  lemma FirstIsLeast(bs: seq<Bucket>, b: Bucket)
    requires Sorted(bs) && b in bs
    ensures bs[0].le <= b.le
  {
    var j :| 0 <= j < |bs| && bs[j] == b;
  }

  lemma FirstAgrees(a: seq<Bucket>, b: seq<Bucket>)
    requires Sorted(a) && StrictlySorted(b) && multiset(a) == multiset(b) && a != [] && b != []
    ensures a[0] == b[0]
  {
    assert a[0] in multiset(b) && b[0] in multiset(a);
    FirstIsLeast(a, b[0]);
    FirstIsLeast(b, a[0]);
  }

  lemma SameLength(a: seq<Bucket>, b: seq<Bucket>)
    requires multiset(a) == multiset(b)
    ensures |a| == |b|
  {
    assert |a| == |multiset(a)| && |b| == |multiset(b)|;
  }

  lemma TailsAgree(a: seq<Bucket>, b: seq<Bucket>)
    requires multiset(a) == multiset(b) && a != [] && b != [] && a[0] == b[0]
    ensures multiset(a[1..]) == multiset(b[1..])
  {
    assert a == [a[0]] + a[1..] && b == [b[0]] + b[1..];
    assert multiset(a[1..]) == multiset(a) - multiset{a[0]};
    assert multiset(b[1..]) == multiset(b) - multiset{b[0]};
  }

  lemma {:induction false} SortedUnique(a: seq<Bucket>, b: seq<Bucket>)
    requires Sorted(a) && StrictlySorted(b) && multiset(a) == multiset(b)
    ensures a == b
    decreases |b|
  {
    SameLength(a, b);
    if b != [] {
      FirstAgrees(a, b);
      TailsAgree(a, b);
      SortedUnique(a[1..], b[1..]);
    }
  }

  /** Sorting recovers the histogram from its buckets in any order. */
  lemma SortedSeriesIsHistogram(items: seq<Item>, samples: seq<real>, bounds: seq<real>)
    requires Increasing(bounds) && multiset(Collected(items)) == multiset(Histogram(samples, bounds))
    ensures SortByLe(Collected(items)) == Histogram(samples, bounds)
  {
    SortByLeSorts(Collected(items));
    SortedUnique(SortByLe(Collected(items)), Histogram(samples, bounds));
  }

  /** The lines an exporter writes for a series, in bucket order. */
  function Lines(samples: seq<real>, bounds: seq<real>): (r: seq<Item>)
    ensures |r| == |bounds| + 1
  {
    seq(|bounds|, i requires 0 <= i < |bounds| => Item(true, true, Finite(bounds[i]), CountLe(samples, bounds[i])))
    + [Item(true, true, Inf, |samples|)]
  }

  /** The lines of the series are among `items`, each as often as written, in any order and between any other lines. */
  ghost predicate Exported(items: seq<Item>, samples: seq<real>, bounds: seq<real>) {
    forall x: Item :: Taken(x) ==> multiset(items)[x] == multiset(Lines(samples, bounds))[x]
  }

  lemma {:induction false} CollectedCounts(items: seq<Item>, b: Bucket)
    ensures multiset(Collected(items))[b] == multiset(items)[Item(true, true, Finite(b.le), b.cum)]
  {
    if items != [] {
      var x, init := items[|items| - 1], items[..|items| - 1];
      CollectedCounts(init, b);
      assert items == init + [x];
      CountLast(init, x, Item(true, true, Finite(b.le), b.cum));
      if Taken(x) && x.bound.Finite? {
        CountLast(Collected(init), Bucket(x.bound.le, x.value), b);
      } else {
        assert Collected(init) + [] == Collected(init);
      }
    }
  }

  lemma CountLast<T>(init: seq<T>, x: T, y: T)
    ensures multiset(init + [x])[y] == multiset(init)[y] + if x == y then 1 else 0
  {
  }

  lemma {:induction false} LinesCollected(samples: seq<real>, bounds: seq<real>, n: nat)
    requires n <= |bounds|
    ensures Collected(Lines(samples, bounds)[..n]) == Histogram(samples, bounds)[..n]
  {
    var lines := Lines(samples, bounds);
    if n > 0 {
      LinesCollected(samples, bounds, n - 1);
      assert lines[..n][..n - 1] == lines[..n - 1];
      assert Histogram(samples, bounds)[..n] == Histogram(samples, bounds)[..n - 1] + [Histogram(samples, bounds)[n - 1]];
    }
  }

  lemma ExportedCollected(items: seq<Item>, samples: seq<real>, bounds: seq<real>)
    requires Exported(items, samples, bounds)
    ensures multiset(Collected(items)) == multiset(Histogram(samples, bounds))
  {
    var lines, n := Lines(samples, bounds), |bounds|;
    LinesCollected(samples, bounds, n);
    assert lines == lines[..n] + [lines[n]] && Histogram(samples, bounds)[..n] == Histogram(samples, bounds);
    assert Collected(lines) == Histogram(samples, bounds);
    forall b: Bucket ensures multiset(Collected(items))[b] == multiset(Collected(lines))[b] {
      CollectedCounts(items, b);
      CollectedCounts(lines, b);
      assert Taken(Item(true, true, Finite(b.le), b.cum));
    }
  }

  lemma {:induction false} TotalIs(items: seq<Item>, n: nat)
    requires Item(true, true, Inf, n) in items
    requires forall x :: x in items && Taken(x) && x.bound.Inf? ==> x.value == n
    ensures Total(items) == n
  {
    var x, init := items[|items| - 1], items[..|items| - 1];
    assert items == init + [x];
    if !(Taken(x) && x.bound.Inf?) {
      TotalIs(init, n);
    }
  }

  lemma ExportedTotal(items: seq<Item>, samples: seq<real>, bounds: seq<real>)
    requires Exported(items, samples, bounds)
    ensures Total(items) == |samples|
  {
    var lines, last := Lines(samples, bounds), Item(true, true, Inf, |samples|);
    assert lines[|bounds|] == last;
    assert last in multiset(lines) && last in multiset(items);
    forall x | x in items && Taken(x) && x.bound.Inf? ensures x.value == |samples| {
      assert x in multiset(items) && x in multiset(lines) && x in lines;
    }
    TotalIs(items, |samples|);
  }

  /**
   * From the exported lines to the answer: in whatever order they come, and whatever other lines are among them, the
   * estimate falls in the bucket of the true nearest-rank sample.
   */
  lemma ExportedEstimate(items: seq<Item>, samples: seq<real>, bounds: seq<real>, q: real, x: real, i: nat)
    requires Exported(items, samples, bounds)
    requires bounds != [] && Increasing(bounds) && samples != [] && NearestRank(samples, q, x)
    requires i <= |bounds| && (if i < |bounds| then InBucket(bounds, i, x) else x > bounds[|bounds| - 1])
    ensures var v := Estimate(SortByLe(Collected(items)), Total(items), q);
            && (i < |bounds| ==> InBucket(bounds, i, v))
            && (i == 0 ==> v == bounds[0])
            && (i == |bounds| ==> v == bounds[|bounds| - 1])
  {
    ExportedCollected(items, samples, bounds);
    ExportedTotal(items, samples, bounds);
    SortedSeriesIsHistogram(items, samples, bounds);
    EstimateInSampleBucket(samples, bounds, q, x, i);
  }
}
