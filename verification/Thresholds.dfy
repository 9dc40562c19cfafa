/** The adaptive threshold that decides, sample by sample, whether a statistic shows a trend. */
module Thresholds {
  import opened Sums

  datatype Direction = Increasing | Decreasing

  datatype Detector = Detector(
    size: nat, k: real, direction: Direction, warmup: nat, allowed: nat,
    values: seq<real>,            // the bounded window, oldest first
    iterations: nat, excesses: nat, threshold: real)

  ghost predicate Valid(d: Detector)
  {
    |d.values| <= d.size && d.allowed >= 1 && d.excesses < d.allowed
  }

  function New(size: nat, k: real, direction: Direction, warmup: int, allowed: int): (d: Detector)
    ensures Valid(d)
  {
    Detector(size, k, direction, if warmup > 0 then warmup else 0, if allowed > 1 then allowed else 1, [], 0, 0, 0.0)
  }

  // ----- the weighted average -----

  /** 2 ** -i */
  function Weight(i: nat): real
  {
    if i == 0 then 1.0 else Weight(i - 1) / 2.0
  }

  /** The weighted sum of the n newest differences, the newest first. */
  function WeightedSum(vs: seq<real>, n: nat): real
    requires n < |vs|
  {
    if n == 0 then 0.0
    else WeightedSum(vs, n - 1) + Weight(n) * (vs[|vs| - n] - vs[|vs| - n - 1])
  }

  function WeightedAverage(vs: seq<real>): real
  {
    if |vs| < 2 then 0.0 else WeightedSum(vs, |vs| - 1)
  }

  /** Exponential smoothing with factor one half, started at the oldest value. */
  function Smoothed(vs: seq<real>): real
    requires vs != []
  {
    if |vs| == 1 then vs[0] else (Smoothed(vs[..|vs| - 1]) + vs[|vs| - 1]) / 2.0
  }

  lemma {:induction false} WeightedSumShift(vs: seq<real>, n: nat)
    requires 1 <= n < |vs|
    ensures WeightedSum(vs, n) ==
      (vs[|vs| - 1] - vs[|vs| - 2]) / 2.0 + WeightedSum(vs[..|vs| - 1], n - 1) / 2.0
  {
    if n == 1 {
      assert Weight(1) == 0.5;
    } else {
      WeightedSumShift(vs, n - 1);
      HalfProduct(Weight(n - 1), vs[|vs| - n] - vs[|vs| - n - 1]);
    }
  }

  lemma HalfProduct(w: real, d: real)
    ensures (w / 2.0) * d == (w * d) / 2.0
  {
  }

  /** Summation by parts: half the gap between the newest value and the smoothed older ones. */
  lemma {:induction false} AverageIsHalfGap(vs: seq<real>)
    requires |vs| >= 2
    ensures WeightedAverage(vs) == (vs[|vs| - 1] - Smoothed(vs[..|vs| - 1])) / 2.0
  {
    var older := vs[..|vs| - 1];
    WeightedSumShift(vs, |vs| - 1);
    if |vs| > 2 {
      AverageIsHalfGap(older);
    }
  }

  lemma {:induction false} SmoothedWithin(vs: seq<real>, lo: real, hi: real)
    requires vs != [] && forall i :: 0 <= i < |vs| ==> lo <= vs[i] <= hi
    ensures lo <= Smoothed(vs) <= hi
  {
    if |vs| > 1 {
      SmoothedWithin(vs[..|vs| - 1], lo, hi);
    }
  }

  // ----- one sample -----

  function Pushed(vs: seq<real>, size: nat, v: real): seq<real>
  {
    if size == 0 then vs else if |vs| == size then vs[1..] + [v] else vs + [v]
  }

  predicate Exceeds(direction: Direction, average: real, threshold: real)
  {
    match direction
    case Increasing => average > threshold
    case Decreasing => average < -threshold
  }

  /** The threshold moves towards the size of the average by the fraction k. */
  function Adapted(threshold: real, k: real, average: real): real
  {
    threshold + k * (Abs(average) - threshold)
  }

  /** The detector and its verdict once window, average and threshold are updated. */
  function Judge(d: Detector, vs: seq<real>, average: real, threshold: real): (Detector, bool)
  {
    var d' := d.(values := vs, threshold := threshold, iterations := d.iterations + 1);
    if d.iterations + 1 <= d.warmup then (d', false)
    else if !Exceeds(d.direction, average, threshold) then (d'.(excesses := 0), false)
    else if d.excesses + 1 >= d.allowed then (d'.(excesses := 0), true)
    else (d'.(excesses := d.excesses + 1), false)
  }

  /** The detector after checking a sample, and its verdict. */
  function Check(d: Detector, v: real): (Detector, bool)
  {
    var vs := Pushed(d.values, d.size, v);
    var average := WeightedAverage(vs);
    Judge(d, vs, average, Adapted(d.threshold, d.k, average))
  }

  function CheckAll(d: Detector, samples: seq<real>): (r: (Detector, seq<bool>))
    ensures |r.1| == |samples|
  {
    if samples == [] then (d, [])
    else
      var n := |samples| - 1;
      var (d', verdicts) := CheckAll(d, samples[..n]);
      var (d'', verdict) := Check(d', samples[n]);
      (d'', verdicts + [verdict])
  }

  // ----- two runs: units and direction -----

  /** e sees the samples of d in another unit: v becomes a * v + b. */
  ghost predicate Rescaled(d: Detector, e: Detector, a: real, b: real)
  {
    && e == d.(values := e.values, threshold := e.threshold)
    && InUnit(d.values, e.values, a, b)
    && e.threshold == a * d.threshold
  }

  ghost predicate InUnit(vs: seq<real>, us: seq<real>, a: real, b: real)
  {
    |us| == |vs| && forall i :: 0 <= i < |vs| ==> us[i] == a * vs[i] + b
  }

  lemma {:induction false} WeightedSumRescaled(vs: seq<real>, us: seq<real>, a: real, b: real, n: nat)
    requires InUnit(vs, us, a, b) && n < |vs|
    ensures WeightedSum(us, n) == a * WeightedSum(vs, n)
  {
    if n > 0 {
      WeightedSumRescaled(vs, us, a, b, n - 1);
      RescaledTerm(a, b, Weight(n), WeightedSum(vs, n - 1), vs[|vs| - n], vs[|vs| - n - 1]);
    }
  }

  lemma RescaledTerm(a: real, b: real, w: real, s: real, x: real, y: real)
    ensures a * s + w * ((a * x + b) - (a * y + b)) == a * (s + w * (x - y))
  {
  }

  lemma PushedRescaled(vs: seq<real>, us: seq<real>, a: real, b: real, size: nat, v: real)
    requires InUnit(vs, us, a, b)
    ensures InUnit(Pushed(vs, size, v), Pushed(us, size, a * v + b), a, b)
  {
  }

  lemma AverageRescaled(vs: seq<real>, us: seq<real>, a: real, b: real)
    requires InUnit(vs, us, a, b)
    ensures WeightedAverage(us) == a * WeightedAverage(vs)
  {
    if |vs| >= 2 {
      WeightedSumRescaled(vs, us, a, b, |vs| - 1);
    }
  }

  lemma ThresholdRescaled(a: real, k: real, average: real, t: real, average': real, t': real)
    requires a > 0.0 && average' == a * average && t' == a * t
    ensures Adapted(t', k, average') == a * Adapted(t, k, average)
  {
  }

  lemma ExceedsRescaled(direction: Direction, a: real, average: real, t: real, average': real, t': real)
    requires a > 0.0 && average' == a * average && t' == a * t
    ensures Exceeds(direction, average', t') <==> Exceeds(direction, average, t)
  {
  }

  lemma CheckRescaled(d: Detector, e: Detector, a: real, b: real, v: real)
    requires a > 0.0 && Rescaled(d, e, a, b)
    ensures Rescaled(Check(d, v).0, Check(e, a * v + b).0, a, b)
    ensures Check(d, v).1 == Check(e, a * v + b).1
  {
    hide WeightedAverage, Pushed, Exceeds, Adapted, InUnit;
    var vs, us := Pushed(d.values, d.size, v), Pushed(e.values, e.size, a * v + b);
    PushedRescaled(d.values, e.values, a, b, d.size, v);
    AverageRescaled(vs, us, a, b);
    var average, average' := WeightedAverage(vs), WeightedAverage(us);
    ThresholdRescaled(a, d.k, average, d.threshold, average', e.threshold);
    ExceedsRescaled(d.direction, a, average, Adapted(d.threshold, d.k, average), average', Adapted(e.threshold, d.k, average'));
  }

  /** Changing the unit of all samples changes no verdict and scales the threshold. */
  lemma {:induction false} UnitIndependence(d: Detector, e: Detector, a: real, b: real, samples: seq<real>, rescaled: seq<real>)
    requires a > 0.0 && Rescaled(d, e, a, b) && InUnit(samples, rescaled, a, b)
    ensures CheckAll(e, rescaled).1 == CheckAll(d, samples).1
    ensures Rescaled(CheckAll(d, samples).0, CheckAll(e, rescaled).0, a, b)
  {
    hide Check, Rescaled, InUnit;
    PrefixInUnit(samples, rescaled, a, b);
    if samples != [] {
      var n := |samples| - 1;
      UnitIndependence(d, e, a, b, samples[..n], rescaled[..n]);
      CheckRescaled(CheckAll(d, samples[..n]).0, CheckAll(e, rescaled[..n]).0, a, b, samples[n]);
    }
  }

  lemma PrefixInUnit(vs: seq<real>, us: seq<real>, a: real, b: real)
    requires InUnit(vs, us, a, b)
    ensures |us| == |vs|
    ensures vs != [] ==> var n := |vs| - 1;
      InUnit(vs[..n], us[..n], a, b) && us[n] == a * vs[n] + b
  {
  }

  /** e looks for decreases where d looks for increases, and sees the negated samples. */
  ghost predicate Mirrored(d: Detector, e: Detector)
  {
    && d.direction == Increasing && e.direction == Decreasing
    && e == d.(values := e.values, direction := e.direction)
    && InUnit(d.values, e.values, -1.0, 0.0)
  }

  lemma CheckMirrored(d: Detector, e: Detector, v: real)
    requires Mirrored(d, e)
    ensures Mirrored(Check(d, v).0, Check(e, -v).0)
    ensures Check(d, v).1 == Check(e, -v).1
  {
    hide WeightedAverage;
    assert -1.0 * v + 0.0 == -v;
    PushedRescaled(d.values, e.values, -1.0, 0.0, d.size, v);
    AverageRescaled(Pushed(d.values, d.size, v), Pushed(e.values, e.size, -v), -1.0, 0.0);
  }

  /** Looking for decreases in the negated samples is looking for increases in the samples. */
  lemma {:induction false} DirectionsMirror(d: Detector, e: Detector, samples: seq<real>, negated: seq<real>)
    requires Mirrored(d, e) && InUnit(samples, negated, -1.0, 0.0)
    ensures CheckAll(e, negated).1 == CheckAll(d, samples).1
    ensures Mirrored(CheckAll(d, samples).0, CheckAll(e, negated).0)
  {
    hide Check, Mirrored, InUnit;
    PrefixInUnit(samples, negated, -1.0, 0.0);
    if samples != [] {
      var n := |samples| - 1;
      DirectionsMirror(d, e, samples[..n], negated[..n]);
      assert negated[n] == -samples[n];
      CheckMirrored(CheckAll(d, samples[..n]).0, CheckAll(e, negated[..n]).0, samples[n]);
    }
  }

  // ----- bounds over runs -----

  ghost predicate Between(vs: seq<real>, lo: real, hi: real)
  {
    forall i :: 0 <= i < |vs| ==> lo <= vs[i] <= hi
  }

  ghost predicate ThresholdBounded(d: Detector, lo: real, hi: real)
  {
    Between(d.values, lo, hi) && 0.0 <= d.threshold <= (hi - lo) / 2.0
  }

  lemma AverageBounded(vs: seq<real>, lo: real, hi: real)
    requires Between(vs, lo, hi) && lo <= hi
    ensures Abs(WeightedAverage(vs)) <= (hi - lo) / 2.0
  {
    if |vs| >= 2 {
      AverageIsHalfGap(vs);
      SmoothedWithin(vs[..|vs| - 1], lo, hi);
    }
  }

  lemma MovesTowards(t: real, k: real, x: real, m: real)
    requires 0.0 <= k <= 1.0 && 0.0 <= t <= m && 0.0 <= x <= m
    ensures 0.0 <= t + k * (x - t) <= m
  {
    Blend(1.0 - k, k, t, x, m);
    assert (1.0 - k) * t == t - k * t;
    assert k * (x - t) == k * x - k * t;
  }

  /** A convex combination of values in [0, m] is in [0, m]. */
  lemma Blend(j: real, k: real, t: real, x: real, m: real)
    requires 0.0 <= j && 0.0 <= k && j + k == 1.0 && 0.0 <= t <= m && 0.0 <= x <= m
    ensures 0.0 <= j * t + k * x <= m
  {
    Product(j, t, m);
    Product(k, x, m);
    assert j * t <= j * m;
    assert k * x <= k * m;
    var a, b, c, d := j * t, k * x, j * m, k * m;
    assert c + d == m by {
      assert c + d == (j + k) * m;
    }
    assert a <= c && b <= d;
  }

  lemma Product(k: real, x: real, m: real)
    requires 0.0 <= k && 0.0 <= x <= m
    ensures 0.0 <= k * x <= k * m
  {
  }

  lemma CheckBounded(d: Detector, v: real, lo: real, hi: real)
    requires 0.0 <= d.k <= 1.0 && ThresholdBounded(d, lo, hi) && lo <= v <= hi
    ensures ThresholdBounded(Check(d, v).0, lo, hi) && Check(d, v).0.k == d.k
  {
    hide WeightedAverage;
    var vs := Pushed(d.values, d.size, v);
    AverageBounded(vs, lo, hi);
    MovesTowards(d.threshold, d.k, Abs(WeightedAverage(vs)), (hi - lo) / 2.0);
  }

  /** With samples in [lo, hi] and 0 <= k <= 1 the threshold stays between 0 and (hi - lo) / 2. */
  lemma {:induction false} ThresholdStaysBounded(d: Detector, samples: seq<real>, lo: real, hi: real)
    requires 0.0 <= d.k <= 1.0 && ThresholdBounded(d, lo, hi) && Between(samples, lo, hi) && lo <= hi
    ensures ThresholdBounded(CheckAll(d, samples).0, lo, hi) && CheckAll(d, samples).0.k == d.k
  {
    hide Check, ThresholdBounded;
    if samples != [] {
      var n := |samples| - 1;
      ThresholdStaysBounded(d, samples[..n], lo, hi);
      CheckBounded(CheckAll(d, samples[..n]).0, samples[n], lo, hi);
    }
  }

  ghost predicate NonIncreasing(vs: seq<real>)
  {
    forall i, j :: 0 <= i < j < |vs| ==> vs[i] >= vs[j]
  }

  lemma FallingAverage(vs: seq<real>)
    requires NonIncreasing(vs)
    ensures WeightedAverage(vs) <= 0.0
  {
    if |vs| >= 2 {
      AverageIsHalfGap(vs);
      SmoothedWithin(vs[..|vs| - 1], vs[|vs| - 1], vs[0]);
    }
  }

  ghost predicate AtLeast(vs: seq<real>, floor: real)
  {
    forall i :: 0 <= i < |vs| ==> vs[i] >= floor
  }

  /** A detector of increases whose window falls, and whose threshold is not negative. */
  ghost predicate Falling(d: Detector)
  {
    0.0 <= d.k <= 1.0 && d.direction == Increasing && d.threshold >= 0.0 && NonIncreasing(d.values)
  }

  lemma PushedFalls(vs: seq<real>, size: nat, v: real, floor: real)
    requires NonIncreasing(vs) && AtLeast(vs, v) && v >= floor
    ensures NonIncreasing(Pushed(vs, size, v)) && AtLeast(Pushed(vs, size, v), floor)
  {
  }

  lemma CheckFalling(d: Detector, v: real, floor: real)
    requires Falling(d) && AtLeast(d.values, v) && v >= floor
    ensures !Check(d, v).1 && Falling(Check(d, v).0) && AtLeast(Check(d, v).0.values, floor)
  {
    hide WeightedAverage;
    var vs := Pushed(d.values, d.size, v);
    PushedFalls(d.values, d.size, v, floor);
    FallingAverage(vs);
    var x := Abs(WeightedAverage(vs));
    hide Pushed, NonIncreasing, AtLeast;
    MovesTowards(d.threshold, d.k, x, if x >= d.threshold then x else d.threshold);
  }

  /** Samples that never rise, and never rise above the window, never raise a trend "i". */
  lemma {:induction false} FallingNeverTrends(d: Detector, samples: seq<real>, floor: real)
    requires Falling(d) && NonIncreasing(samples) && AtLeast(d.values, floor) && AtLeast(samples, floor)
    requires forall j :: 0 <= j < |samples| ==> AtLeast(d.values, samples[j])
    ensures forall i :: 0 <= i < |samples| ==> !CheckAll(d, samples).1[i]
    ensures Falling(CheckAll(d, samples).0) && AtLeast(CheckAll(d, samples).0.values, floor)
  {
    if samples != [] {
      var n := |samples| - 1;
      FallingNeverTrends(d, samples[..n], samples[n]);
      hide Check, Falling;
      CheckFalling(CheckAll(d, samples[..n]).0, samples[n], floor);
    }
  }

  function Count(verdicts: seq<bool>): nat
  {
    if verdicts == [] then 0 else Count(verdicts[..|verdicts| - 1]) + if verdicts[|verdicts| - 1] then 1 else 0
  }

  function PastWarmup(d: Detector): nat
  {
    if d.iterations > d.warmup then d.iterations - d.warmup else 0
  }

  /** A sample past the warmup pays for at most one excess, and a trend costs all the excesses allowed. */
  lemma CheckPays(d: Detector, v: real)
    requires Valid(d)
    ensures var (d', verdict) := Check(d, v);
      && Valid(d') && d'.allowed == d.allowed && d'.warmup == d.warmup && d'.iterations == d.iterations + 1
      && (if verdict then d.allowed else 0) + d'.excesses <= PastWarmup(d') - PastWarmup(d) + d.excesses
  {
  }

  /** Every reported trend has used up its own excesses_allowed samples past the warmup. */
  lemma {:induction false} TrendsAreRare(d: Detector, samples: seq<real>)
    requires Valid(d)
    ensures var (d', verdicts) := CheckAll(d, samples);
      && Valid(d') && d'.allowed == d.allowed && d'.warmup == d.warmup && d'.iterations == d.iterations + |samples|
      && Count(verdicts) * d.allowed + d'.excesses <= PastWarmup(d') - PastWarmup(d) + d.excesses
  {
    hide Check, Valid, PastWarmup;
    if samples != [] {
      var n := |samples| - 1;
      TrendsAreRare(d, samples[..n]);
      var (d', verdicts) := CheckAll(d, samples[..n]);
      var (d'', verdict) := Check(d', samples[n]);
      CheckPays(d', samples[n]);
      assert (verdicts + [verdict])[..n] == verdicts;
      OneMoreTrend(Count(verdicts), d.allowed);
    }
  }

  lemma OneMoreTrend(c: nat, allowed: nat)
    ensures (c + 1) * allowed == c * allowed + allowed
  {
  }

  /** N samples to a new detector report at most max(0, N - warmup) / excesses_allowed trends. */
  lemma TrendBound(size: nat, k: real, direction: Direction, warmup: int, allowed: int, samples: seq<real>)
    ensures var d := New(size, k, direction, warmup, allowed);
      Count(CheckAll(d, samples).1) * d.allowed <= if |samples| > d.warmup then |samples| - d.warmup else 0
  {
    TrendsAreRare(New(size, k, direction, warmup, allowed), samples);
  }

  // ----- exactly which samples are trends -----

  /** The gap between the newest value and the smoothed older ones; none while there are no older ones. */
  function Gap(vs: seq<real>): real
  {
    if |vs| < 2 then 0.0 else vs[|vs| - 1] - Smoothed(vs[..|vs| - 1])
  }

  /** The share k of y and the rest of x. */
  function Blended(x: real, y: real, k: real): real
  {
    (1.0 - k) * x + k * y
  }

  /** Half the gap lies beyond the threshold, which first moves towards its size by the fraction k. */
  predicate Beyond(direction: Direction, half: real, threshold: real, k: real)
  {
    var t := Blended(threshold, Abs(half), k);
    if direction == Increasing then half > t else -half > t
  }

  predicate Exceeding(d: Detector, v: real)
  {
    Beyond(d.direction, Gap(Pushed(d.values, d.size, v)) / 2.0, d.threshold, d.k)
  }

  lemma AverageIsHalfOfGap(vs: seq<real>)
    ensures WeightedAverage(vs) == Gap(vs) / 2.0
  {
    if |vs| >= 2 {
      AverageIsHalfGap(vs);
    }
  }

  /** The threshold closes the fraction k of its distance to the size of the average. */
  lemma ThresholdCloses(d: Detector, v: real)
    ensures var size := Abs(Gap(Pushed(d.values, d.size, v)) / 2.0);
      size - Check(d, v).0.threshold == (1.0 - d.k) * (size - d.threshold)
  {
    AverageIsHalfOfGap(Pushed(d.values, d.size, v));
    hide WeightedAverage, Gap, Pushed, Smoothed;
    var x, t, k := Abs(Gap(Pushed(d.values, d.size, v)) / 2.0), d.threshold, d.k;
    assert x - (t + k * (x - t)) == (1.0 - k) * (x - t);
  }

  lemma BeyondIsExceeds(direction: Direction, half: real, threshold: real, k: real)
    ensures Exceeds(direction, half, Adapted(threshold, k, half)) <==> Beyond(direction, half, threshold, k)
  {
    var x := Abs(half);
    assert threshold + k * (x - threshold) == (1.0 - k) * threshold + k * x;
  }

  /**
   The verdict on one sample: nothing during warmup; then a trend exactly if the sample exceeds and
   completes the allowed number of excesses in a row, which start again after it and after every
   sample that does not exceed.
   */
  lemma VerdictExactly(d: Detector, v: real)
    requires Valid(d)
    ensures var (d', verdict) := Check(d, v);
      && Valid(d') && d'.iterations == d.iterations + 1 && d'.warmup == d.warmup && d'.allowed == d.allowed
      && d'.direction == d.direction && d'.size == d.size && d'.k == d.k
      && (verdict <==> d.iterations >= d.warmup && Exceeding(d, v) && d.excesses + 1 == d.allowed)
      && d'.excesses == if d.iterations < d.warmup then d.excesses
                        else if !Exceeding(d, v) || d.excesses + 1 == d.allowed then 0
                        else d.excesses + 1
  {
    var vs := Pushed(d.values, d.size, v);
    PushedSize(d.values, d.size, v);
    AverageIsHalfOfGap(vs);
    BeyondIsExceeds(d.direction, Gap(vs) / 2.0, d.threshold, d.k);
    hide WeightedAverage, Gap, Pushed, Beyond, Exceeds, Adapted;
  }

  /** All samples come past the warmup, and each of them exceeds. */
  ghost predicate AllExceed(d: Detector, samples: seq<real>)
  {
    d.iterations >= d.warmup && forall i :: 0 <= i < |samples| ==> Exceeding(CheckAll(d, samples[..i]).0, samples[i])
  }

  lemma PrefixExceeds(d: Detector, samples: seq<real>)
    requires AllExceed(d, samples) && samples != []
    ensures AllExceed(d, samples[..|samples| - 1])
    ensures Exceeding(CheckAll(d, samples[..|samples| - 1]).0, samples[|samples| - 1])
  {
    var rest := samples[..|samples| - 1];
    forall i | 0 <= i < |rest| ensures Exceeding(CheckAll(d, rest[..i]).0, rest[i]) {
      assert rest[..i] == samples[..i];
    }
  }

  /** Of consecutive exceeding samples every one is an excess: each trend takes the allowed number of them, and the rest is counted. */
  lemma {:induction false} ExcessesAddUp(d: Detector, samples: seq<real>)
    requires Valid(d) && AllExceed(d, samples)
    ensures var (d', verdicts) := CheckAll(d, samples);
      && Valid(d') && d'.allowed == d.allowed && d'.warmup == d.warmup && d'.iterations == d.iterations + |samples|
      && Count(verdicts) * d.allowed + d'.excesses == d.excesses + |samples|
  {
    hide Check, Valid, Exceeding, AllExceed;
    if samples != [] {
      var n := |samples| - 1;
      PrefixExceeds(d, samples);
      ExcessesAddUp(d, samples[..n]);
      var (d', verdicts) := CheckAll(d, samples[..n]);
      var (d'', verdict) := Check(d', samples[n]);
      VerdictExactly(d', samples[n]);
      assert d.iterations >= d.warmup by { AllExceedPastWarmup(d, samples); }
      assert (verdicts + [verdict])[..n] == verdicts;
      OneMoreTrend(Count(verdicts), d.allowed);
    }
  }

  lemma AllExceedPastWarmup(d: Detector, samples: seq<real>)
    requires AllExceed(d, samples)
    ensures d.iterations >= d.warmup
  {
  }

  /** m consecutive exceeding samples past the warmup report exactly one trend for every allowed number of excesses. */
  lemma TrendsExactly(d: Detector, samples: seq<real>)
    requires Valid(d) && AllExceed(d, samples)
    ensures Count(CheckAll(d, samples).1) == (d.excesses + |samples|) / d.allowed
  {
    hide CheckAll, AllExceed;
    ExcessesAddUp(d, samples);
    var c, e := Count(CheckAll(d, samples).1), CheckAll(d, samples).0.excesses;
    assert e < d.allowed;
    hide *;
    QuotientIs(d.excesses + |samples|, d.allowed, c, e);
  }

  lemma QuotientIs(x: nat, a: nat, q: nat, r: nat)
    requires a > 0 && x == q * a + r && r < a
    ensures x / a == q
  {
    var q', r' := x / a, x % a;
    SameQuotient(a, q, r, q', r');
  }

  lemma SameQuotient(a: int, q: int, r: int, q': int, r': int)
    requires a > 0 && q * a + r == a * q' + r' && 0 <= r < a && 0 <= r' < a
    ensures q == q'
  {
    assert (q - q') * a == r' - r;
    AtLeastOne(q - q', a);
  }

  lemma AtLeastOne(e: int, a: int)
    requires a > 0
    ensures (e >= 1 ==> e * a >= a) && (e <= -1 ==> e * a <= -a)
  {
  }

  /** A new detector that allows one excess and has no warmup reports the first rise, and so a fall in the other direction. */
  lemma FirstRiseIsATrend(size: nat, k: real, x: real, y: real)
    requires size >= 2 && 0.0 <= k < 1.0 && x < y
    ensures CheckAll(New(size, k, Increasing, 0, 1), [x, y]).1 == [false, true]
    ensures CheckAll(New(size, k, Decreasing, 0, 1), [y, x]).1 == [false, true]
    ensures CheckAll(New(size, k, Increasing, 0, 1), [y, x]).1 == [false, false]
  {
    FirstTwo(New(size, k, Increasing, 0, 1), x, y);
    FirstTwo(New(size, k, Decreasing, 0, 1), y, x);
    FirstTwo(New(size, k, Increasing, 0, 1), y, x);
    BeyondZero(Increasing, (y - x) / 2.0, k);
    BeyondZero(Decreasing, (x - y) / 2.0, k);
    BeyondZero(Increasing, (x - y) / 2.0, k);
  }

  lemma BeyondZero(direction: Direction, half: real, k: real)
    requires 0.0 <= k < 1.0
    ensures Beyond(direction, half, 0.0, k) <==> if direction == Increasing then half > 0.0 else half < 0.0
  {
    BlendedWithZero(k, Abs(half));
    hide Blended;
  }

  lemma BlendedWithZero(k: real, x: real)
    requires 0.0 <= k < 1.0 && x >= 0.0
    ensures 0.0 <= Blended(0.0, x, k) <= x && (x > 0.0 ==> Blended(0.0, x, k) < x)
  {
    assert (1.0 - k) * x >= 0.0;
    assert x > 0.0 ==> (1.0 - k) * x > 0.0;
  }

  lemma FirstTwo(d: Detector, x: real, y: real)
    requires d.size >= 2 && d.values == [] && d.threshold == 0.0 && d.iterations == d.warmup == d.excesses == 0 && d.allowed == 1
    ensures CheckAll(d, [x, y]).1 == [false, Beyond(d.direction, (y - x) / 2.0, 0.0, d.k)]
  {
    var d1 := Check(d, x).0;
    FirstSample(d, x);
    VerdictExactly(d, x);
    VerdictExactly(d1, y);
    OneByOne(d, x, y);
    GapOfTwo(d.size, x, y);
    hide Check, Beyond, Gap, Pushed, CheckAll;
    assert Exceeding(d1, y) <==> Beyond(d.direction, (y - x) / 2.0, 0.0, d.k);
  }

  lemma FirstSample(d: Detector, x: real)
    requires d.size >= 2 && d.values == [] && d.threshold == 0.0
    ensures Check(d, x).0.values == [x] && Check(d, x).0.threshold == 0.0
  {
    assert Pushed(d.values, d.size, x) == [x];
    StillZero(d.k);
    hide Adapted;
  }

  lemma StillZero(k: real)
    ensures Adapted(0.0, k, 0.0) == 0.0
  {
  }

  lemma GapOfTwo(size: nat, x: real, y: real)
    requires size >= 2
    ensures Gap(Pushed([x], size, y)) == y - x
  {
    assert Pushed([x], size, y) == [x, y] && [x, y][..1] == [x];
    assert Smoothed([x]) == x;
  }

  lemma OneByOne(d: Detector, x: real, y: real)
    ensures CheckAll(d, [x, y]).1 == [Check(d, x).1, Check(Check(d, x).0, y).1]
  {
    hide Check;
    assert [x, y][..1] == [x] && [x][..0] == [];
    assert CheckAll(d, []) == (d, []);
    var (d0, vs) := CheckAll(d, [x][..0]);
    assert d0 == d && vs == [];
    assert CheckAll(d, [x]) == (Check(d, x).0, [] + [Check(d, x).1]);
  }

  // ----- the window -----

  /** The newest of the values, as many as the window holds. */
  function Newest(vs: seq<real>, size: nat): seq<real>
  {
    if |vs| <= size then vs else vs[|vs| - size..]
  }

  /** The window always holds the newest samples. */
  lemma {:induction false} WindowIsNewest(d: Detector, samples: seq<real>)
    requires Valid(d)
    ensures CheckAll(d, samples).0.values == Newest(d.values + samples, d.size)
    ensures CheckAll(d, samples).0.size == d.size && Valid(CheckAll(d, samples).0)
  {
    if samples == [] {
      assert d.values + samples == d.values;
    } else {
      var n := |samples| - 1;
      WindowIsNewest(d, samples[..n]);
      var d' := CheckAll(d, samples[..n]).0;
      VerdictExactly(d', samples[n]);
      assert d.values + samples == (d.values + samples[..n]) + [samples[n]];
      hide Judge, WeightedAverage, Adapted, Valid;
      PushedNewest(d.values + samples[..n], d.size, samples[n]);
    }
  }

  lemma PushedNewest(vs: seq<real>, size: nat, v: real)
    ensures Pushed(Newest(vs, size), size, v) == Newest(vs + [v], size)
  {
  }

  lemma PushedSize(vs: seq<real>, size: nat, v: real)
    requires |vs| <= size
    ensures |Pushed(vs, size, v)| <= size
  {
  }

  // ----- new detectors -----

  /** The verdicts of a new detector do not depend on the unit or the zero point of the samples. */
  lemma VerdictsIgnoreUnits(size: nat, k: real, direction: Direction, warmup: int, allowed: int,
                            a: real, b: real, samples: seq<real>, rescaled: seq<real>)
    requires a > 0.0 && InUnit(samples, rescaled, a, b)
    ensures var d := New(size, k, direction, warmup, allowed);
      && CheckAll(d, rescaled).1 == CheckAll(d, samples).1
      && CheckAll(d, rescaled).0.threshold == a * CheckAll(d, samples).0.threshold
  {
    var d := New(size, k, direction, warmup, allowed);
    UnitIndependence(d, d, a, b, samples, rescaled);
  }

  /** A new detector of increases never sees a trend in samples that never rise. */
  lemma FallingFromTheStart(size: nat, k: real, warmup: int, allowed: int, samples: seq<real>)
    requires 0.0 <= k <= 1.0 && NonIncreasing(samples)
    ensures Count(CheckAll(New(size, k, Increasing, warmup, allowed), samples).1) == 0
  {
    var d := New(size, k, Increasing, warmup, allowed);
    FallingNeverTrends(d, samples, if samples == [] then 0.0 else samples[|samples| - 1]);
    NoneCounted(CheckAll(d, samples).1);
  }

  lemma {:induction false} NoneCounted(verdicts: seq<bool>)
    requires forall i :: 0 <= i < |verdicts| ==> !verdicts[i]
    ensures Count(verdicts) == 0
  {
    if verdicts != [] {
      NoneCounted(verdicts[..|verdicts| - 1]);
    }
  }

  // ----- the detector as an object -----

  class Thresholder {
    const maxWindowSize: nat
    const k: real
    const trendDirection: Direction
    const warmupIterations: nat
    const excessesAllowed: nat
    var values: seq<real>
    var numIterations: nat
    var numExcesses: nat
    var threshold: real

    ghost function View(): Detector
      reads this
    {
      Detector(maxWindowSize, k, trendDirection, warmupIterations, excessesAllowed, values, numIterations, numExcesses, threshold)
    }

    constructor (size: nat, k: real, direction: Direction, warmup: int, allowed: int)
      ensures View() == New(size, k, direction, warmup, allowed)
      ensures warmupIterations as int >= warmup && (warmupIterations == 0 || warmupIterations as int == warmup)
      ensures excessesAllowed >= 1 && excessesAllowed as int >= allowed && (excessesAllowed == 1 || excessesAllowed as int == allowed)
      ensures values == [] && numIterations == numExcesses == 0 && threshold == 0.0
    {
      maxWindowSize, this.k, trendDirection := size, k, direction;
      warmupIterations := if warmup > 0 then warmup else 0;
      excessesAllowed := if allowed > 1 then allowed else 1;
      values, numIterations, numExcesses, threshold := [], 0, 0, 0.0;
    }

    method CheckTrend(val: real) returns (trend: bool)
      requires |values| <= maxWindowSize
      modifies this
      ensures (View(), trend) == Check(old(View()), val)
      ensures |values| <= maxWindowSize
    {
      hide WeightedAverage, Pushed, Adapted;
      values := Pushed(values, maxWindowSize, val);
      PushedSize(old(values), maxWindowSize, val);
      var average := GetWeightedAverage();
      UpdateThreshold(average);
      numIterations := numIterations + 1;
      if numIterations <= warmupIterations {
        return false;
      }
      var isTrend := false;
      match trendDirection {
        case Increasing => isTrend := average > threshold;
        case Decreasing => isTrend := average < -threshold;
      }
      if isTrend {
        numExcesses := numExcesses + 1;
        if numExcesses >= excessesAllowed {
          numExcesses := 0;
          return true;
        }
      } else {
        numExcesses := 0;
      }
      return false;
    }

    method GetWeightedAverage() returns (sum: real)
      requires |values| <= maxWindowSize
      ensures sum == WeightedAverage(values)
    {
      var window := if maxWindowSize < |values| then maxWindowSize else |values|;
      if window < 2 {
        return 0.0;
      }
      sum := 0.0;
      for i := 1 to window
        invariant sum == WeightedSum(values, i - 1)
      {
        sum := sum + Weight(i) * (values[|values| - i] - values[|values| - i - 1]);
      }
    }

    method UpdateThreshold(average: real)
      modifies this`threshold
      ensures threshold == Adapted(old(threshold), k, average)
    {
      threshold := threshold + k * (Abs(average) - threshold);
    }
  }
}
