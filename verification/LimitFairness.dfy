/** How the clamp-and-redistribute loop treats the feeds, and what it converges to. */
module LimitFairness {
  import opened Sums
  import opened LimitLoop
  import opened LimitParts
  import opened LimitTheorems

  /** The first allocation: the summed action split by weight. */
  function RawShares(total: real, ws: seq<real>): (xs: seq<real>)
    ensures |xs| == |ws|
  {
    seq(|ws|, i requires 0 <= i < |ws| => total * ws[i])
  }

  // ----- proportionality -----

  /** No round among the first k found feed i outside the limits. */
  ghost predicate NeverClamped(xs: seq<real>, ws: seq<real>, lo: real, hi: real, k: nat, i: nat)
    requires |xs| == |ws| && i < |xs|
  {
    forall j: nat :: j < k && Rounds(xs, ws, lo, hi, j).Looping? ==> lo <= Rounds(xs, ws, lo, hi, j).values[i] <= hi
  }

  /** x is to y as w is to v. */
  predicate InRatio(x: real, y: real, w: real, v: real)
  {
    x * v == y * w
  }

  lemma ProportionalRound(xs: seq<real>, ws: seq<real>, lo: real, hi: real, i: nat, j: nat)
    requires |xs| == |ws| && i < |xs| && j < |xs|
    requires lo <= xs[i] <= hi && lo <= xs[j] <= hi && InRatio(xs[i], xs[j], ws[i], ws[j])
    ensures var ys := Round(xs, ws, lo, hi).values; InRatio(ys[i], ys[j], ws[i], ws[j])
  {
    hide InRatio;
    if Round(xs, ws, lo, hi).Looping? {
      assert Clamp(xs[i], lo, hi) == xs[i] && Clamp(xs[j], lo, hi) == xs[j];
      assert forall a :: !Locked(xs[i], a, lo, hi) && !Locked(xs[j], a, lo, hi);
      hide *;
      var m := OpenTotal(xs, ws, lo, hi);
      RoundValue(xs, ws, lo, hi, i, m);
      RoundValue(xs, ws, lo, hi, j, m);
      var ys := Round(xs, ws, lo, hi).values;
      SameRatio(xs[i], xs[j], ws[i], ws[j], Adjustment(xs, lo, hi), m, ys[i], ys[j]);
    }
  }

  /** Feeds never clamped keep the ratio of their weights, however the others are clamped. */
  lemma {:induction false} Proportional(total: real, ws: seq<real>, lo: real, hi: real, k: nat, i: nat, j: nat)
    requires i < |ws| && j < |ws|
    requires NeverClamped(RawShares(total, ws), ws, lo, hi, k, i)
    requires NeverClamped(RawShares(total, ws), ws, lo, hi, k, j)
    ensures var vs := Rounds(RawShares(total, ws), ws, lo, hi, k).values; InRatio(vs[i], vs[j], ws[i], ws[j])
  {
    var xs := RawShares(total, ws);
    hide RawShares, Round, InRatio;
    if k == 0 {
      RawRatio(total, ws, i, j);
    } else {
      Proportional(total, ws, lo, hi, k - 1, i, j);
      var o := Rounds(xs, ws, lo, hi, k - 1);
      if o.Looping? {
        ProportionalRound(o.values, ws, lo, hi, i, j);
      }
    }
  }

  lemma RawRatio(total: real, ws: seq<real>, i: nat, j: nat)
    requires i < |ws| && j < |ws|
    ensures InRatio(RawShares(total, ws)[i], RawShares(total, ws)[j], ws[i], ws[j])
  {
  }

  lemma SameRatio(x: real, y: real, w: real, v: real, a: real, m: real, x': real, y': real)
    requires m != 0.0 && InRatio(x, y, w, v)
    requires x' == x + ShareOf(a, w, m) && y' == y + ShareOf(a, v, m)
    ensures InRatio(x', y', w, v)
  {
  }

  // ----- order -----

  /** After clamping no feed is below a lighter one. */
  ghost predicate Ordered(xs: seq<real>, ws: seq<real>, lo: real, hi: real)
  {
    && |xs| == |ws|
    && forall i, j :: 0 <= i < |ws| && 0 <= j < |ws| && ws[i] >= ws[j] ==> Clamp(xs[i], lo, hi) >= Clamp(xs[j], lo, hi)
  }

  lemma RawOrder(total: real, ws: seq<real>, i: nat, j: nat)
    requires total >= 0.0 && i < |ws| && j < |ws| && ws[i] >= ws[j]
    ensures RawShares(total, ws)[i] >= RawShares(total, ws)[j]
  {
  }

  lemma MoreOf(total: real, w: real, v: real)
    requires total >= 0.0 && w >= v
    ensures total * w >= total * v
  {
  }

  lemma ShareOrder(a: real, w: real, v: real, m: real)
    requires a > 0.0 && m > 0.0 && w >= v
    ensures ShareOf(a, w, m) >= ShareOf(a, v, m)
  {
    QuotientMonotone(v, w, m);
    MoreOf(a, w / m, v / m);
  }

  /** Of two open feeds of different weight, if all open ones weigh less than nothing, the heavier one is at hi. */
  lemma LightFeedsAtTop(xs: seq<real>, ws: seq<real>, lo: real, hi: real, i: nat, j: nat)
    requires Ordered(xs, ws, lo, hi) && SameSigns(ws) && Graded(ws) && lo <= hi
    requires Adjustment(xs, lo, hi) > 0.0 && OpenTotal(xs, ws, lo, hi) < 0.0
    requires i < |ws| && j < |ws| && ws[i] > ws[j] && xs[i] <= hi && xs[j] <= hi
    ensures Clamp(xs[i], lo, hi) == hi
  {
    OpenPartIs(xs, ws, lo, hi);
    var open := OpenPart(xs, lo, hi);
    assert open[i] && open[j] && Agrees(ws, open);
    var part := seq(|ws|, n requires 0 <= n < |ws| => ws[n] <= ws[i]);
    assert part[i] && part[j];
    WeightNegative(ws, part, j);
    assert Lower(ws, part) && !Uniform(ws, part);
    SomeoneIsOver(xs, lo, hi);
    var over :| 0 <= over < |xs| && xs[over] > hi;
    assert part[over];
  }

  lemma OrderedRound(xs: seq<real>, ws: seq<real>, lo: real, hi: real)
    requires Ordered(xs, ws, lo, hi) && SameSigns(ws) && Graded(ws) && lo <= hi && Adjustment(xs, lo, hi) >= 0.0
    ensures Ordered(Round(xs, ws, lo, hi).values, ws, lo, hi)
  {
    var o := Round(xs, ws, lo, hi);
    if o.Looping? {
      GoesOnAdjusts(xs, ws, lo, hi);
      hide Round, Adjustment, SameSigns, Graded, OpenTotal, ShareOf;
      forall i, j | 0 <= i < |ws| && 0 <= j < |ws| && ws[i] >= ws[j]
        ensures Clamp(o.values[i], lo, hi) >= Clamp(o.values[j], lo, hi)
      {
        assert Clamp(xs[i], lo, hi) >= Clamp(xs[j], lo, hi);
        OrderedPair(xs, ws, lo, hi, i, j);
      }
    }
  }

  lemma OrderedPair(xs: seq<real>, ws: seq<real>, lo: real, hi: real, i: nat, j: nat)
    requires Ordered(xs, ws, lo, hi) && SameSigns(ws) && Graded(ws) && lo <= hi
    requires Adjustment(xs, lo, hi) > 0.0 && Round(xs, ws, lo, hi).Looping?
    requires i < |ws| && j < |ws| && ws[i] >= ws[j] && Clamp(xs[i], lo, hi) >= Clamp(xs[j], lo, hi)
    ensures var ys := Round(xs, ws, lo, hi).values; Clamp(ys[i], lo, hi) >= Clamp(ys[j], lo, hi)
  {
    var a, m := Adjustment(xs, lo, hi), OpenTotal(xs, ws, lo, hi);
    hide Round, Adjustment, SameSigns, Graded, OpenTotal, ShareOf, Ordered;
    RoundValue(xs, ws, lo, hi, i, m);
    RoundValue(xs, ws, lo, hi, j, m);
    if xs[i] <= hi {
      OpenGains(xs, ws, lo, hi, i);
      if xs[j] <= hi && m > 0.0 {
        ShareOrder(a, ws[i], ws[j], m);
      } else if xs[j] <= hi && ws[i] > ws[j] {
        LightFeedsAtTop(xs, ws, lo, hi, i, j);
      }
    }
  }

  lemma {:induction false} OrderedRun(xs: seq<real>, ws: seq<real>, lo: real, hi: real, k: nat)
    requires |xs| == |ws| && Ordered(xs, ws, lo, hi)
    requires SameSigns(ws) && Graded(ws) && lo <= hi && Adjustment(xs, lo, hi) >= 0.0
    ensures Ordered(Rounds(xs, ws, lo, hi, k).values, ws, lo, hi)
  {
    hide Round, Adjustment, SameSigns, Graded, Ordered;
    if k > 0 {
      OrderedRun(xs, ws, lo, hi, k - 1);
      var o := Rounds(xs, ws, lo, hi, k - 1);
      if o.Looping? {
        SurplusRunGrows(xs, ws, lo, hi, k - 1, k - 1);
        OrderedRound(o.values, ws, lo, hi);
      }
    }
  }

  /**
   On a surplus run of a non-negative total no feed is, after clamping, below a lighter one, in
   any round; so it is not when the loop has exited. The weights have to meet the two conditions
   on their signs, as they do when none is negative.
   */
  lemma HeavierNotLess(total: real, ws: seq<real>, lo: real, hi: real, k: nat, i: nat, j: nat)
    requires SameSigns(ws) && Graded(ws) && lo <= hi && total >= 0.0
    requires i < |ws| && j < |ws| && ws[i] >= ws[j]
    requires Adjustment(RawShares(total, ws), lo, hi) >= 0.0
    ensures var o := Rounds(RawShares(total, ws), ws, lo, hi, k);
      && |o.values| == |ws|
      && Clamp(o.values[i], lo, hi) >= Clamp(o.values[j], lo, hi)
      && (!o.Looping? ==> o.values[i] >= o.values[j])
  {
    var xs := RawShares(total, ws);
    hide RawShares, Rounds, Adjustment, SameSigns, Graded;
    RawOrdered(total, ws, lo, hi);
    OrderedRun(xs, ws, lo, hi, k);
    if !Rounds(xs, ws, lo, hi, k).Looping? {
      ExitedIsClamped(xs, ws, lo, hi, k, i);
      ExitedIsClamped(xs, ws, lo, hi, k, j);
    }
  }

  lemma RawNotNegative(total: real, ws: seq<real>)
    requires NonNegative(ws) && total >= 0.0
    ensures forall i :: 0 <= i < |ws| ==> RawShares(total, ws)[i] >= 0.0
  {
    var xs := RawShares(total, ws);
    forall i | 0 <= i < |ws| ensures xs[i] >= 0.0 {
      MoreOf(total, ws[i], 0.0);
    }
  }

  lemma RawOrdered(total: real, ws: seq<real>, lo: real, hi: real)
    requires lo <= hi && total >= 0.0
    ensures Ordered(RawShares(total, ws), ws, lo, hi)
  {
    var xs := RawShares(total, ws);
    hide RawShares;
    forall i, j | 0 <= i < |ws| && 0 <= j < |ws| && ws[i] >= ws[j] ensures Clamp(xs[i], lo, hi) >= Clamp(xs[j], lo, hi) {
      RawOrder(total, ws, i, j);
    }
  }

  /** A run that has exited leaves every share clamped. */
  lemma {:induction false} ExitedIsClamped(xs: seq<real>, ws: seq<real>, lo: real, hi: real, k: nat, i: nat)
    requires |xs| == |ws| && lo <= hi && i < |xs| && !Rounds(xs, ws, lo, hi, k).Looping?
    ensures var v := Rounds(xs, ws, lo, hi, k).values[i]; Clamp(v, lo, hi) == v
  {
    if k > 0 && !Rounds(xs, ws, lo, hi, k - 1).Looping? {
      ExitedIsClamped(xs, ws, lo, hi, k - 1, i);
    }
  }

  // ----- convergence -----

  /**
   For a total the limits can hold, after j rounds no clamped share is further than
   (1 - w/W)^j times the first adjustment from its value in any later round.
   */
  lemma ConvergesGeometrically(xs: seq<real>, ws: seq<real>, lo: real, hi: real, least: real, j: nat, k: nat, i: nat)
    requires |xs| == |ws| > 0 && Positive(ws, least) && lo <= hi && j <= k && i < |xs|
    requires Feasible(Sum(xs), |xs|, lo, hi) && Rounds(xs, ws, lo, hi, j).Looping?
    ensures Abs(Clamp(Rounds(xs, ws, lo, hi, k).values[i], lo, hi) - Clamp(Rounds(xs, ws, lo, hi, j).values[i], lo, hi))
         <= Power(Rate(ws, least), j) * Abs(Adjustment(xs, lo, hi))
  {
    hide Rate, Power, Round, Rounds, Adjustment;
    ContractionOverRun(xs, ws, lo, hi, least, j);
    StaysClose(xs, ws, lo, hi, least, j, k, i);
  }

  lemma StaysClose(xs: seq<real>, ws: seq<real>, lo: real, hi: real, least: real, j: nat, k: nat, i: nat)
    requires |xs| == |ws| > 0 && Positive(ws, least) && lo <= hi && j <= k && i < |xs|
    requires Rounds(xs, ws, lo, hi, j).Looping?
    ensures Abs(Clamp(Rounds(xs, ws, lo, hi, k).values[i], lo, hi) - Clamp(Rounds(xs, ws, lo, hi, j).values[i], lo, hi))
         <= Abs(Adjustment(Rounds(xs, ws, lo, hi, j).values, lo, hi))
  {
    hide Round, Positive, Adjustment, SameSigns, Graded;
    var vs, o := Rounds(xs, ws, lo, hi, j).values, Rounds(xs, ws, lo, hi, k);
    PositiveIsNonNegative(ws, least);
    NonNegativeAgree(ws);
    OneSided(xs, ws, lo, hi, j, k);
    OneSided(xs, ws, lo, hi, j, j);
    OneSided(xs, ws, lo, hi, k, k);
    if o.Looping? || o.Balanced? {
      RunConserves(xs, ws, lo, hi, j);
      RunConserves(xs, ws, lo, hi, k);
      if o.Balanced? {
        BalancedIsWithin(xs, ws, lo, hi, k);
        WithinIsUnadjusted(o.values, lo, hi);
      }
      MovesAtMost(vs, o.values, lo, hi, Adjustment(xs, lo, hi) >= 0.0, i);
    } else {
      NeverZeroWeights(xs, ws, lo, hi, least, k);
      SaturatesOnlyAtOnce(xs, ws, lo, hi, k);
      FirstRound(xs, ws, lo, hi);
      if j > 0 {
        RunStops(xs, ws, lo, hi, 1, j);
      } else {
        SaturatedIsClamped(xs, ws, lo, hi);
      }
    }
  }

  lemma WithinIsUnadjusted(xs: seq<real>, lo: real, hi: real)
    requires Within(xs, lo, hi)
    ensures Adjustment(xs, lo, hi) == 0.0
  {
    assert Clamped(xs, lo, hi) == xs;
  }

  lemma LastRoundClamps(ys: seq<real>, ws: seq<real>, lo: real, hi: real)
    requires |ys| == |ws| && Within(ys, lo, hi)
    ensures Round(ys, ws, lo, hi) == Balanced(ys)
  {
    WithinIsUnadjusted(ys, lo, hi);
  }

  lemma SaturatedIsClamped(xs: seq<real>, ws: seq<real>, lo: real, hi: real)
    requires |xs| == |ws| && lo <= hi && Round(xs, ws, lo, hi).Saturated?
    ensures forall i :: 0 <= i < |xs| ==> Clamp(Round(xs, ws, lo, hi).values[i], lo, hi) == Clamp(xs[i], lo, hi)
  {
  }

  /** Equal totals and clamped values all moving one way: none moves further than the first adjustment. */
  lemma MovesAtMost(vs: seq<real>, us: seq<real>, lo: real, hi: real, up: bool, i: nat)
    requires |vs| == |us| && i < |vs| && Sum(vs) == Sum(us)
    requires forall n :: 0 <= n < |vs| ==>
      if up then Clamp(vs[n], lo, hi) <= Clamp(us[n], lo, hi) else Clamp(vs[n], lo, hi) >= Clamp(us[n], lo, hi)
    requires if up then Adjustment(us, lo, hi) >= 0.0 else Adjustment(us, lo, hi) <= 0.0
    ensures Abs(Clamp(us[i], lo, hi) - Clamp(vs[i], lo, hi)) <= Abs(Adjustment(vs, lo, hi))
  {
    var cs, ds := Clamped(vs, lo, hi), Clamped(us, lo, hi);
    if up {
      SumGap(cs, ds, i);
    } else {
      SumGap(ds, cs, i);
    }
  }

  lemma FirstRound(xs: seq<real>, ws: seq<real>, lo: real, hi: real)
    requires |xs| == |ws|
    ensures Rounds(xs, ws, lo, hi, 1) == Round(xs, ws, lo, hi)
  {
  }
}
