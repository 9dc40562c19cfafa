/** What the clamp-and-redistribute loop guarantees over whole runs. */
module LimitTheorems {
  import opened Sums
  import opened LimitLoop
  import opened LimitParts

  // ----- surplus rounds and runs; deficits follow by negation -----

  lemma SurplusRound(xs: seq<real>, ws: seq<real>, lo: real, hi: real, least: real) returns (ss: seq<real>, f: real)
    requires |xs| == |ws| && Positive(ws, least) && lo <= hi
    requires Adjustment(xs, lo, hi) > 0.0 && Round(xs, ws, lo, hi).Looping?
    ensures Sum(ws) > 0.0 && f == Adjustment(xs, lo, hi) * (least / Sum(ws)) > 0.0
    ensures SurplusStep(xs, ss, Round(xs, ws, lo, hi).values, lo, hi, f)
  {
    var a := Adjustment(xs, lo, hi);
    var j :| 0 <= j < |xs| && !Locked(xs[j], a, lo, hi);
    OpenWeightsPositive(xs, ws, a, lo, hi, least, j);
    f := a * (least / Sum(ws));
    SmallestShare(a, least, least, Sum(ws), Sum(ws));
    ss := RoundIsSurplusStep(xs, ws, lo, hi, least, f);
  }

  /** When the signs of the weights agree, a surplus round lowers nobody and leaves no deficit. */
  lemma SurplusRoundGrows(xs: seq<real>, ws: seq<real>, lo: real, hi: real)
    requires |xs| == |ws| && SameSigns(ws) && lo <= hi
    requires Adjustment(xs, lo, hi) >= 0.0
    ensures var o := Round(xs, ws, lo, hi);
      && (forall i :: 0 <= i < |xs| ==> Clamp(xs[i], lo, hi) <= Clamp(o.values[i], lo, hi))
      && (o.Looping? ==> Adjustment(o.values, lo, hi) >= 0.0)
  {
    var o := Round(xs, ws, lo, hi);
    if o.Looping? {
      GoesOnAdjusts(xs, ws, lo, hi);
      hide Round, Adjustment, SameSigns, ShareOf, OpenTotal;
      forall i | 0 <= i < |xs| ensures lo <= Clamp(xs[i], lo, hi) <= o.values[i] {
        RoundValue(xs, ws, lo, hi, i, OpenTotal(xs, ws, lo, hi));
        if xs[i] <= hi {
          OpenGains(xs, ws, lo, hi, i);
        }
      }
      NoneBelow(o.values, lo, hi);
    }
  }

  lemma GoesOnAdjusts(xs: seq<real>, ws: seq<real>, lo: real, hi: real)
    requires |xs| == |ws| && Round(xs, ws, lo, hi).Looping?
    ensures Adjustment(xs, lo, hi) != 0.0
  {
  }

  lemma {:induction false} RunStops(xs: seq<real>, ws: seq<real>, lo: real, hi: real, j: nat, k: nat)
    requires |xs| == |ws| && j <= k
    ensures !Rounds(xs, ws, lo, hi, j).Looping? ==> Rounds(xs, ws, lo, hi, k) == Rounds(xs, ws, lo, hi, j)
  {
    if j < k {
      RunStops(xs, ws, lo, hi, j, k - 1);
    }
  }

  lemma {:induction false} SurplusRunGrows(xs: seq<real>, ws: seq<real>, lo: real, hi: real, j: nat, k: nat)
    requires |xs| == |ws| && SameSigns(ws) && lo <= hi && j <= k
    requires Adjustment(xs, lo, hi) >= 0.0
    ensures var vs, us := Rounds(xs, ws, lo, hi, j).values, Rounds(xs, ws, lo, hi, k).values;
      forall i :: 0 <= i < |xs| ==> Clamp(vs[i], lo, hi) <= Clamp(us[i], lo, hi)
    ensures Rounds(xs, ws, lo, hi, k).Looping? ==> Adjustment(Rounds(xs, ws, lo, hi, k).values, lo, hi) >= 0.0
    decreases k
  {
    hide Round, Adjustment, SameSigns;
    if k > 0 {
      SurplusRunGrows(xs, ws, lo, hi, if j < k then j else k - 1, k - 1);
      var o := Rounds(xs, ws, lo, hi, k - 1);
      if o.Looping? {
        SurplusRoundGrows(o.values, ws, lo, hi);
      }
    }
  }

  lemma {:induction false} MirrorRun(xs: seq<real>, ws: seq<real>, lo: real, hi: real, k: nat)
    requires |xs| == |ws| && lo <= hi
    ensures var o, o' := Rounds(xs, ws, lo, hi, k), Rounds(Negated(xs), ws, -hi, -lo, k);
      && o'.values == Negated(o.values)
      && (o'.Looping? <==> o.Looping?) && (o'.Balanced? <==> o.Balanced?) && (o'.Saturated? <==> o.Saturated?)
  {
    if k > 0 {
      MirrorRun(xs, ws, lo, hi, k - 1);
      MirrorRound(Rounds(xs, ws, lo, hi, k - 1).values, ws, lo, hi);
    }
  }

  // ----- one-sidedness -----

  /**
   When the signs of the weights agree, as they do when none is negative, the adjustment never
   changes sign during a run, and the clamped shares only move its way: up on a surplus run, down
   on a deficit run.
   */
  lemma OneSided(xs: seq<real>, ws: seq<real>, lo: real, hi: real, j: nat, k: nat)
    requires |xs| == |ws| && SameSigns(ws) && lo <= hi && j <= k
    ensures var vs, us := Rounds(xs, ws, lo, hi, j).values, Rounds(xs, ws, lo, hi, k).values;
      forall i :: 0 <= i < |xs| ==>
        if Adjustment(xs, lo, hi) >= 0.0 then Clamp(vs[i], lo, hi) <= Clamp(us[i], lo, hi)
        else Clamp(vs[i], lo, hi) >= Clamp(us[i], lo, hi)
    ensures var o := Rounds(xs, ws, lo, hi, k);
      o.Looping? ==>
        if Adjustment(xs, lo, hi) >= 0.0 then Adjustment(o.values, lo, hi) >= 0.0
        else Adjustment(o.values, lo, hi) <= 0.0
  {
    if Adjustment(xs, lo, hi) >= 0.0 {
      SurplusRunGrows(xs, ws, lo, hi, j, k);
    } else {
      DeficitRunFalls(xs, ws, lo, hi, j, k);
    }
  }

  lemma DeficitRunFalls(xs: seq<real>, ws: seq<real>, lo: real, hi: real, j: nat, k: nat)
    requires |xs| == |ws| && SameSigns(ws) && lo <= hi && j <= k
    requires Adjustment(xs, lo, hi) < 0.0
    ensures var vs, us := Rounds(xs, ws, lo, hi, j).values, Rounds(xs, ws, lo, hi, k).values;
      forall i :: 0 <= i < |xs| ==> Clamp(vs[i], lo, hi) >= Clamp(us[i], lo, hi)
    ensures Rounds(xs, ws, lo, hi, k).Looping? ==> Adjustment(Rounds(xs, ws, lo, hi, k).values, lo, hi) <= 0.0
  {
    hide Rounds, Adjustment, SameSigns;
    MirrorAdjustment(xs, lo, hi);
    SurplusRunGrows(Negated(xs), ws, -hi, -lo, j, k);
    MirrorRun(xs, ws, lo, hi, j);
    MirrorRun(xs, ws, lo, hi, k);
    MirrorAdjustment(Rounds(xs, ws, lo, hi, k).values, lo, hi);
    var vs, us := Rounds(xs, ws, lo, hi, j).values, Rounds(xs, ws, lo, hi, k).values;
    forall i | 0 <= i < |xs| ensures Clamp(vs[i], lo, hi) >= Clamp(us[i], lo, hi) {
      assert Clamp(Negated(vs)[i], -hi, -lo) <= Clamp(Negated(us)[i], -hi, -lo);
    }
  }

  // ----- conservation and exits -----

  /** A run loses nothing unless it stops on the saturated break or a failed division. */
  lemma {:induction false} RunConserves(xs: seq<real>, ws: seq<real>, lo: real, hi: real, k: nat)
    requires |xs| == |ws|
    ensures var o := Rounds(xs, ws, lo, hi, k);
      o.Looping? || o.Balanced? ==> Sum(o.values) == Sum(xs)
  {
    if k > 0 {
      RunConserves(xs, ws, lo, hi, k - 1);
      RoundConserves(Rounds(xs, ws, lo, hi, k - 1).values, ws, lo, hi);
    }
  }

  /** A feed locked in a round that goes on sits exactly at a limit afterwards. */
  lemma LockedFeedRests(xs: seq<real>, ws: seq<real>, lo: real, hi: real) returns (i: nat)
    requires |xs| == |ws| && lo <= hi
    requires Round(xs, ws, lo, hi).Looping?
    ensures i < |xs| && lo <= Round(xs, ws, lo, hi).values[i] <= hi
  {
    if Adjustment(xs, lo, hi) > 0.0 {
      i := SurplusLockedRests(xs, ws, lo, hi);
    } else {
      MirrorAdjustment(xs, lo, hi);
      MirrorRound(xs, ws, lo, hi);
      i := SurplusLockedRests(Negated(xs), ws, -hi, -lo);
    }
  }

  lemma SurplusLockedRests(xs: seq<real>, ws: seq<real>, lo: real, hi: real) returns (i: nat)
    requires |xs| == |ws| && lo <= hi
    requires Adjustment(xs, lo, hi) > 0.0 && Round(xs, ws, lo, hi).Looping?
    ensures i < |xs| && Round(xs, ws, lo, hi).values[i] == hi
  {
    OverRests(xs, ws, lo, hi);
    i :| 0 <= i < |xs| && xs[i] > hi;
  }

  lemma {:induction false} NeverZeroWeights(xs: seq<real>, ws: seq<real>, lo: real, hi: real, least: real, k: nat)
    requires |xs| == |ws| && Positive(ws, least)
    ensures !Rounds(xs, ws, lo, hi, k).ZeroWeights?
  {
    if k > 0 {
      NeverZeroWeights(xs, ws, lo, hi, least, k - 1);
      PositiveNeverRaises(Rounds(xs, ws, lo, hi, k - 1).values, ws, lo, hi, least);
    }
  }

  lemma {:induction false} SaturatesOnlyAtOnce(xs: seq<real>, ws: seq<real>, lo: real, hi: real, k: nat)
    requires |xs| == |ws| && lo <= hi
    requires Rounds(xs, ws, lo, hi, k).Saturated?
    ensures Round(xs, ws, lo, hi).Saturated? && Rounds(xs, ws, lo, hi, k) == Round(xs, ws, lo, hi)
  {
    assert Rounds(xs, ws, lo, hi, 0).Looping?;
    var o := Rounds(xs, ws, lo, hi, k - 1);
    if !o.Looping? {
      SaturatesOnlyAtOnce(xs, ws, lo, hi, k - 1);
    } else if k > 1 {
      var i := LockedFeedRests(Rounds(xs, ws, lo, hi, k - 2).values, ws, lo, hi);
      assert false;
    }
  }

  /** Every share is strictly past the upper limit, or every share strictly past the lower one. */
  ghost predicate AllPast(xs: seq<real>, lo: real, hi: real)
  {
    || (forall i :: 0 <= i < |xs| ==> xs[i] > hi)
    || (forall i :: 0 <= i < |xs| ==> xs[i] < lo)
  }

  /**
   Whenever the loop has exited without raising, after any number of rounds, either every share is
   within the limits and nothing of the total is lost, or the break fired in the first round with
   every raw share strictly past one limit, every share now at that limit, and a total beyond it.
   */
  lemma ExitCharacterisation(xs: seq<real>, ws: seq<real>, lo: real, hi: real, k: nat)
    requires |xs| == |ws| > 0 && lo <= hi
    requires var o := Rounds(xs, ws, lo, hi, k); o.Balanced? || o.Saturated?
    ensures var o := Rounds(xs, ws, lo, hi, k);
      || (o.Balanced? && Within(o.values, lo, hi) && Sum(o.values) == Sum(xs))
      || (o == Round(xs, ws, lo, hi) && o.Saturated?
          && (forall i :: 0 <= i < |xs| ==> xs[i] > hi && o.values[i] == hi)
          && Sum(xs) > Times(|xs|, hi))
      || (o == Round(xs, ws, lo, hi) && o.Saturated?
          && (forall i :: 0 <= i < |xs| ==> xs[i] < lo && o.values[i] == lo)
          && Sum(xs) < Times(|xs|, lo))
  {
    var o := Rounds(xs, ws, lo, hi, k);
    if o.Balanced? {
      RunConserves(xs, ws, lo, hi, k);
      BalancedIsWithin(xs, ws, lo, hi, k);
    } else {
      SaturatesOnlyAtOnce(xs, ws, lo, hi, k);
      if Adjustment(xs, lo, hi) > 0.0 {
        assert xs[0] > hi;
        BeyondLimit(xs, hi, 0);
      } else {
        assert xs[0] < lo;
        BelowLimit(xs, lo, 0);
      }
    }
  }

  lemma PositiveIsNonNegative(ws: seq<real>, least: real)
    requires Positive(ws, least)
    ensures NonNegative(ws)
  {
  }

  lemma {:induction false} BalancedIsWithin(xs: seq<real>, ws: seq<real>, lo: real, hi: real, k: nat)
    requires |xs| == |ws| && lo <= hi && Rounds(xs, ws, lo, hi, k).Balanced?
    ensures Within(Rounds(xs, ws, lo, hi, k).values, lo, hi)
  {
    if !Rounds(xs, ws, lo, hi, k - 1).Looping? {
      BalancedIsWithin(xs, ws, lo, hi, k - 1);
    }
  }

  lemma BelowLimit(ys: seq<real>, lo: real, j: nat)
    requires j < |ys| && ys[j] < lo
    requires forall i :: 0 <= i < |ys| ==> ys[i] <= lo
    ensures Sum(ys) < Times(|ys|, lo)
  {
    var bottoms := seq(|ys|, i => lo);
    SumConstant(bottoms, lo);
    SumGap(ys, bottoms, j);
  }

  /** A total the limits cannot hold: the loop exits iff all raw shares are strictly past the same limit. */
  lemma InfeasibleExits(xs: seq<real>, ws: seq<real>, lo: real, hi: real, least: real)
    requires |xs| == |ws| > 0 && Positive(ws, least) && lo <= hi
    requires !Feasible(Sum(xs), |xs|, lo, hi)
    ensures (exists k: nat :: !Rounds(xs, ws, lo, hi, k).Looping?) <==> AllPast(xs, lo, hi)
  {
    if k: nat :| !Rounds(xs, ws, lo, hi, k).Looping? {
      NeverZeroWeights(xs, ws, lo, hi, least, k);
      ExitCharacterisation(xs, ws, lo, hi, k);
      var o := Rounds(xs, ws, lo, hi, k);
      if o.Balanced? {
        WithinIsFeasible(o.values, lo, hi);
      }
    }
    if AllPast(xs, lo, hi) {
      AllPastSaturates(xs, ws, lo, hi);
      assert Rounds(xs, ws, lo, hi, 0) == Looping(xs);
      assert !Rounds(xs, ws, lo, hi, 1).Looping?;
    }
  }

  lemma WithinIsFeasible(xs: seq<real>, lo: real, hi: real)
    requires Within(xs, lo, hi)
    ensures Feasible(Sum(xs), |xs|, lo, hi)
  {
    var bottoms, tops := seq(|xs|, i => lo), seq(|xs|, i => hi);
    SumConstant(bottoms, lo);
    SumConstant(tops, hi);
    SumMonotone(bottoms, xs);
    SumMonotone(xs, tops);
  }

  lemma AllPastSaturates(xs: seq<real>, ws: seq<real>, lo: real, hi: real)
    requires |xs| == |ws| > 0 && lo <= hi && AllPast(xs, lo, hi)
    ensures Round(xs, ws, lo, hi).Saturated?
  {
    var cs := Clamped(xs, lo, hi);
    if xs[0] > hi {
      SumGap(cs, xs, 0);
    } else {
      SumGap(xs, cs, 0);
    }
  }

  // ----- contraction -----

  function Power(q: real, k: nat): real
  {
    if k == 0 then 1.0 else q * Power(q, k - 1)
  }

  /** 1 - w/W for positive weights of sum W that are all at least w. */
  ghost function Rate(ws: seq<real>, least: real): (q: real)
    requires |ws| > 0 && Positive(ws, least)
    ensures 0.0 <= q < 1.0
  {
    WeightFraction(ws, least);
    1.0 - least / Sum(ws)
  }

  lemma Quotient1(x: real)
    requires x != 0.0
    ensures x / x == 1.0
  {
  }

  lemma WeightFraction(ws: seq<real>, least: real)
    requires |ws| > 0 && Positive(ws, least)
    ensures Sum(ws) >= least && 0.0 < least / Sum(ws) <= 1.0
  {
    var zeros := seq(|ws|, i => 0.0);
    SumZeros(zeros);
    SumGap(zeros, ws, 0);
    QuotientAntitone(least, least, Sum(ws));
    Quotient1(least);
  }

  ghost predicate Contracts(a: real, a': real, rate: real)
  {
    Abs(a') <= rate * Abs(a)
  }

  /**
   With positive weights of sum W, each at least w, and a total the limits can hold, a round that
   redistributes a is followed by one that redistributes at most (1 - w/W) times as much.
   */
  lemma Contraction(xs: seq<real>, ws: seq<real>, lo: real, hi: real, least: real)
    requires |xs| == |ws| > 0 && Positive(ws, least) && lo <= hi
    requires Feasible(Sum(xs), |xs|, lo, hi) && Round(xs, ws, lo, hi).Looping?
    ensures Contracts(Adjustment(xs, lo, hi), Adjustment(Round(xs, ws, lo, hi).values, lo, hi), Rate(ws, least))
  {
    var ys := Round(xs, ws, lo, hi).values;
    hide Contracts, Rate;
    if Adjustment(xs, lo, hi) > 0.0 {
      SurplusContraction(xs, ws, lo, hi, least);
    } else {
      DeficitContraction(xs, ws, lo, hi, least);
    }
  }

  lemma DeficitContraction(xs: seq<real>, ws: seq<real>, lo: real, hi: real, least: real)
    requires |xs| == |ws| > 0 && Positive(ws, least) && lo <= hi
    requires Adjustment(xs, lo, hi) < 0.0 && Round(xs, ws, lo, hi).Looping?
    requires Sum(xs) >= Times(|xs|, lo)
    ensures Contracts(Adjustment(xs, lo, hi), Adjustment(Round(xs, ws, lo, hi).values, lo, hi), Rate(ws, least))
  {
    hide Contracts, Rate, Round, Adjustment, Positive, Negated;
    var ys := Round(xs, ws, lo, hi).values;
    MirrorAdjustment(xs, lo, hi);
    MirrorRound(xs, ws, lo, hi);
    MirrorAdjustment(ys, lo, hi);
    SumNegated(xs);
    TimesNegated(|xs|, lo);
    SurplusContraction(Negated(xs), ws, -hi, -lo, least);
    ContractsNegated(Adjustment(xs, lo, hi), Adjustment(ys, lo, hi), Rate(ws, least));
  }

  lemma ContractsNegated(a: real, a': real, rate: real)
    requires Contracts(-a, -a', rate)
    ensures Contracts(a, a', rate)
  {
  }

  lemma SurplusContraction(xs: seq<real>, ws: seq<real>, lo: real, hi: real, least: real)
    requires |xs| == |ws| > 0 && Positive(ws, least) && lo <= hi
    requires Adjustment(xs, lo, hi) > 0.0 && Round(xs, ws, lo, hi).Looping?
    requires Sum(xs) <= Times(|xs|, hi)
    ensures Contracts(Adjustment(xs, lo, hi), Adjustment(Round(xs, ws, lo, hi).values, lo, hi), Rate(ws, least))
  {
    hide Contracts, Round, Adjustment, SurplusStep, Positive;
    var ss, f := SurplusRound(xs, ws, lo, hi, least);
    var ys := Round(xs, ws, lo, hi).values;
    SurplusStepShrinks(xs, ss, ys, lo, hi, f);
    WithoutFraction(Adjustment(xs, lo, hi), Adjustment(ys, lo, hi), least / Sum(ws), f);
  }

  lemma SurplusStepShrinks(xs: seq<real>, ss: seq<real>, ys: seq<real>, lo: real, hi: real, f: real)
    requires SurplusStep(xs, ss, ys, lo, hi, f) && f >= 0.0
    requires Sum(xs) <= Times(|xs|, hi)
    ensures 0.0 <= Adjustment(ys, lo, hi) <= Adjustment(xs, lo, hi) - f
  {
    StepContracts(xs, ss, ys, lo, hi, f);
    StepGrows(xs, ss, ys, lo, hi, f);
  }

  lemma WithoutFraction(a: real, a': real, q: real, f: real)
    requires f == a * q && 0.0 < a && 0.0 <= a' <= a - f
    ensures Contracts(a, a', 1.0 - q)
  {
  }

  /** Over k further rounds the bound compounds. */
  lemma {:induction false} ContractionOverRun(xs: seq<real>, ws: seq<real>, lo: real, hi: real, least: real, k: nat)
    requires |xs| == |ws| > 0 && Positive(ws, least) && lo <= hi
    requires Feasible(Sum(xs), |xs|, lo, hi) && Rounds(xs, ws, lo, hi, k).Looping?
    ensures Contracts(Adjustment(xs, lo, hi), Adjustment(Rounds(xs, ws, lo, hi, k).values, lo, hi),
                      Power(Rate(ws, least), k))
  {
    hide Rate, Round, Adjustment, Positive;
    if k > 0 {
      ContractionOverRun(xs, ws, lo, hi, least, k - 1);
      var ys := Rounds(xs, ws, lo, hi, k - 1).values;
      RunConserves(xs, ws, lo, hi, k - 1);
      Contraction(ys, ws, lo, hi, least);
      Compound(Rate(ws, least), Power(Rate(ws, least), k - 1), Abs(Adjustment(xs, lo, hi)),
        Abs(Adjustment(ys, lo, hi)));
    }
  }

  lemma Compound(q: real, p: real, a: real, b: real)
    requires q >= 0.0 && b <= p * a
    ensures q * b <= (q * p) * a
  {
    assert q * b <= q * (p * a);
  }

  /** Any positive tolerance is reached: at most |first adjustment| / (tolerance * w/W) rounds go on above it. */
  lemma ReachesTolerance(xs: seq<real>, ws: seq<real>, lo: real, hi: real, least: real, tolerance: real, k: nat)
    requires |xs| == |ws| > 0 && Positive(ws, least) && lo <= hi && tolerance > 0.0
    requires Feasible(Sum(xs), |xs|, lo, hi)
    requires Abs(Adjustment(xs, lo, hi)) <= tolerance * (k as real * (1.0 - Rate(ws, least)))
    ensures var o := Rounds(xs, ws, lo, hi, k);
      o.Looping? ==> Abs(Adjustment(o.values, lo, hi)) <= tolerance
  {
    hide Rate, Round, Rounds, Adjustment, Positive, Feasible, Power;
    if Rounds(xs, ws, lo, hi, k).Looping? {
      ContractionOverRun(xs, ws, lo, hi, least, k);
      ToleranceReached(Abs(Adjustment(xs, lo, hi)), 1.0 - Rate(ws, least), tolerance, k);
    }
  }

  lemma ToleranceReached(a: real, q: real, tolerance: real, k: nat)
    requires 0.0 < q <= 1.0 && tolerance > 0.0 && 0.0 <= a <= tolerance * (k as real * q)
    ensures Power(1.0 - q, k) * a <= tolerance
  {
    Bernoulli(q, k);
    BelowTolerance(Power(1.0 - q, k), k as real * q, a, tolerance);
  }

  lemma {:induction false} Bernoulli(q: real, k: nat)
    requires 0.0 < q <= 1.0
    ensures 0.0 <= Power(1.0 - q, k)
    ensures Power(1.0 - q, k) * (1.0 + k as real * q) <= 1.0
  {
    if k > 0 {
      Bernoulli(q, k - 1);
      BernoulliStep(q, Power(1.0 - q, k - 1), (k - 1) as real);
      assert k as real == (k - 1) as real + 1.0;
    }
  }

  lemma BernoulliStep(q: real, p: real, n: real)
    requires 0.0 < q <= 1.0 && 0.0 <= p && 0.0 <= n
    requires p * (1.0 + n * q) <= 1.0
    ensures 0.0 <= (1.0 - q) * p
    ensures ((1.0 - q) * p) * (1.0 + (n + 1.0) * q) <= 1.0
  {
    var r := 1.0 + n * q;
    assert 1.0 + (n + 1.0) * q == r + q;
    assert r >= 1.0 by { assert n * q >= 0.0; }
    assert (1.0 - q) * (r + q) == r + q - q * r - q * q;
    assert q * r >= q;
    assert q * q >= 0.0;
    assert (1.0 - q) * (r + q) <= r;
    calc {
      ((1.0 - q) * p) * (r + q);
    ==
      p * ((1.0 - q) * (r + q));
    <=
      p * r;
    }
  }

  lemma BelowTolerance(p: real, m: real, a: real, tolerance: real)
    requires 0.0 <= p && 0.0 <= m && p * (1.0 + m) <= 1.0 && 0.0 <= a <= tolerance * m && tolerance > 0.0
    ensures p * a <= tolerance
  {
    assert p * a <= p * (tolerance * m);
    assert p * (tolerance * m) == tolerance * (p * m);
    assert p * m <= 1.0;
  }
}
