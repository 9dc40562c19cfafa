/** When the division by the weight of the remaining feeds raises, for weights that are not negative. */
module LimitRaises {
  import opened Sums
  import opened LimitLoop
  import opened LimitTheorems
  import opened LimitFairness
  import opened LimitExits

  /**
   A feed without weight stands beside feeds that have some, shares are cut at hi, and either
   every feed with weight is above hi, or hi is negative and one redistribution over all feeds
   with weight pushes every one of them above it.
   */
  ghost predicate RaisesAtTop(total: real, ws: seq<real>, lo: real, hi: real)
  {
    var xs := RawShares(total, ws);
    var a := Adjustment(xs, lo, hi);
    && a > 0.0 && Sum(ws) > 0.0
    && (exists z :: 0 <= z < |ws| && ws[z] == 0.0)
    && (forall i :: 0 <= i < |ws| && ws[i] > 0.0 ==>
          if hi >= 0.0 then xs[i] > hi
          else xs[i] <= hi < Clamp(xs[i], lo, hi) + ShareOf(a, ws[i], Sum(ws)))
  }

  /** The division raises, at the upper limit or in the mirror image at the lower one. */
  ghost predicate Raises(total: real, ws: seq<real>, lo: real, hi: real)
  {
    RaisesAtTop(total, ws, lo, hi) || RaisesAtTop(-total, ws, -hi, -lo)
  }

  // ----- surplus rounds -----

  lemma SurplusRaise(xs: seq<real>, ws: seq<real>, lo: real, hi: real)
    requires |xs| == |ws| && NonNegative(ws) && Adjustment(xs, lo, hi) > 0.0
    ensures Round(xs, ws, lo, hi).ZeroWeights? <==>
      (exists z :: 0 <= z < |xs| && xs[z] <= hi) && (forall i :: 0 <= i < |xs| && ws[i] > 0.0 ==> xs[i] > hi)
  {
    OpenTotalSign(xs, ws, lo, hi);
    var a := Adjustment(xs, lo, hi);
    assert forall i :: 0 <= i < |xs| ==> (Locked(xs[i], a, lo, hi) <==> xs[i] > hi);
  }

  /** The second round raises exactly if the first lifts every feed with weight above hi. */
  lemma SecondRaise(xs: seq<real>, ws: seq<real>, lo: real, hi: real)
    requires |xs| == |ws| && NonNegative(ws) && lo <= hi && Adjustment(xs, lo, hi) > 0.0 && Round(xs, ws, lo, hi).Looping?
    ensures var ys := Round(xs, ws, lo, hi).values;
      Round(ys, ws, lo, hi).ZeroWeights? <==> forall i :: 0 <= i < |xs| && ws[i] > 0.0 ==> ys[i] > hi
  {
    var ys := Round(xs, ws, lo, hi).values;
    OpenTotalSign(xs, ws, lo, hi);
    NonEmptyRound(xs, ws, lo, hi);
    SurplusRoundValues(xs, ws, lo, hi);
    AfterSurplus(xs, ws, lo, hi);
    var over :| 0 <= over < |xs| && xs[over] > hi;
    assert ys[over] <= hi;
    if Adjustment(ys, lo, hi) > 0.0 {
      SurplusRaise(ys, ws, lo, hi);
    } else {
      BalancedRound(ys, ws, lo, hi);
    }
  }

  lemma BalancedRound(xs: seq<real>, ws: seq<real>, lo: real, hi: real)
    requires |xs| == |ws| && Adjustment(xs, lo, hi) == 0.0
    ensures Round(xs, ws, lo, hi).Balanced?
  {
  }

  lemma ThirdNeverRaises(xs: seq<real>, ws: seq<real>, lo: real, hi: real)
    requires |xs| == |ws| && NonNegative(ws) && lo <= hi && Rounds(xs, ws, lo, hi, 2).Looping?
    ensures !Rounds(xs, ws, lo, hi, 3).ZeroWeights?
  {
    hide Round, Adjustment, NonNegative;
    RunStops(xs, ws, lo, hi, 1, 2);
    FirstRound(xs, ws, lo, hi);
    UnfoldRounds(xs, ws, lo, hi, 1);
    UnfoldRounds(xs, ws, lo, hi, 2);
    ThirdGoesOn(xs, ws, lo, hi);
    var zs := Rounds(xs, ws, lo, hi, 2).values;
    if Adjustment(zs, lo, hi) == 0.0 {
      BalancedRound(zs, ws, lo, hi);
    }
  }

  // ----- raw shares -----

  lemma WeightlessRaw(total: real, ws: seq<real>)
    ensures forall i :: 0 <= i < |ws| && ws[i] == 0.0 ==> RawShares(total, ws)[i] == 0.0
  {
  }

  lemma AllOpenTotal(xs: seq<real>, ws: seq<real>, lo: real, hi: real)
    requires |xs| == |ws| && NonNegative(ws) && Adjustment(xs, lo, hi) > 0.0
    requires forall i :: 0 <= i < |xs| && ws[i] > 0.0 ==> xs[i] <= hi
    ensures OpenTotal(xs, ws, lo, hi) == Sum(ws)
  {
    assert OpenWeights(xs, ws, Adjustment(xs, lo, hi), lo, hi) == ws;
  }

  lemma SomeWeight(ws: seq<real>)
    requires NonNegative(ws)
    ensures Sum(ws) > 0.0 <==> exists i :: 0 <= i < |ws| && ws[i] > 0.0
  {
    var zeros := seq(|ws|, i => 0.0);
    SumZeros(zeros);
    SumMonotone(zeros, ws);
    if i :| 0 <= i < |ws| && ws[i] > 0.0 {
      SumGap(zeros, ws, i);
    } else {
      SumZeros(ws);
    }
  }

  /** A first round over raw shares that are cut at hi raises only for an upper limit that is not negative. */
  lemma FirstRawRaise(total: real, ws: seq<real>, lo: real, hi: real)
    requires NonNegative(ws) && lo <= hi && Adjustment(RawShares(total, ws), lo, hi) > 0.0
    ensures Round(RawShares(total, ws), ws, lo, hi).ZeroWeights? <==> hi >= 0.0 && RaisesAtTop(total, ws, lo, hi)
  {
    var xs := RawShares(total, ws);
    SurplusRaise(xs, ws, lo, hi);
    SomeoneIsOver(xs, lo, hi);
    SomeWeight(ws);
    hide Adjustment, Round, RawShares, ShareOf;
    WeightlessRaw(total, ws);
  }

  /** A second round over them raises only for a negative one. */
  lemma SecondRawRaise(total: real, ws: seq<real>, lo: real, hi: real)
    requires NonNegative(ws) && lo <= hi && Adjustment(RawShares(total, ws), lo, hi) > 0.0
    requires Round(RawShares(total, ws), ws, lo, hi).Looping?
    ensures Round(Round(RawShares(total, ws), ws, lo, hi).values, ws, lo, hi).ZeroWeights?
      <==> hi < 0.0 && RaisesAtTop(total, ws, lo, hi)
  {
    var xs := RawShares(total, ws);
    var ys := Round(xs, ws, lo, hi).values;
    SecondRaise(xs, ws, lo, hi);
    SomeoneIsOver(xs, lo, hi);
    var over :| 0 <= over < |xs| && xs[over] > hi;
    SomeWeight(ws);
    SurplusRoundValues(xs, ws, lo, hi);
    OpenTotalSign(xs, ws, lo, hi);
    NonEmptyRound(xs, ws, lo, hi);
    var a, m := Adjustment(xs, lo, hi), OpenTotal(xs, ws, lo, hi);
    hide Adjustment, Round, RawShares, ShareOf, OpenTotal;
    WeightlessRaw(total, ws);
    if forall i :: 0 <= i < |xs| && ws[i] > 0.0 ==> xs[i] <= hi {
      AllOpenTotal(xs, ws, lo, hi);
      forall i | 0 <= i < |xs| && ws[i] > 0.0
        ensures ys[i] == Clamp(xs[i], lo, hi) + ShareOf(a, ws[i], Sum(ws))
      {
        RoundValue(xs, ws, lo, hi, i, m);
      }
    }
  }

  lemma NegativeLimitRedistributes(total: real, ws: seq<real>, lo: real, hi: real)
    requires NonNegative(ws) && lo <= hi < 0.0 && RaisesAtTop(total, ws, lo, hi)
    ensures Round(RawShares(total, ws), ws, lo, hi).Looping?
  {
    var xs := RawShares(total, ws);
    SomeWeight(ws);
    var i :| 0 <= i < |ws| && ws[i] > 0.0;
    OpenTotalSign(xs, ws, lo, hi);
    assert !Locked(xs[i], Adjustment(xs, lo, hi), lo, hi);
  }

  lemma SurplusRaises(total: real, ws: seq<real>, lo: real, hi: real)
    requires NonNegative(ws) && lo <= hi && Adjustment(RawShares(total, ws), lo, hi) > 0.0
    ensures Rounds(RawShares(total, ws), ws, lo, hi, 3).ZeroWeights? <==> RaisesAtTop(total, ws, lo, hi)
  {
    var xs := RawShares(total, ws);
    hide Adjustment, Round, RawShares, RaisesAtTop;
    FirstRawRaise(total, ws, lo, hi);
    FirstRound(xs, ws, lo, hi);
    if Round(xs, ws, lo, hi).Looping? {
      SecondRawRaise(total, ws, lo, hi);
      UnfoldRounds(xs, ws, lo, hi, 1);
      if Rounds(xs, ws, lo, hi, 2).Looping? {
        ThirdNeverRaises(xs, ws, lo, hi);
      } else {
        RunStops(xs, ws, lo, hi, 2, 3);
      }
    } else {
      RunStops(xs, ws, lo, hi, 1, 3);
      if hi < 0.0 && RaisesAtTop(total, ws, lo, hi) {
        NegativeLimitRedistributes(total, ws, lo, hi);
      }
    }
  }

  lemma MirrorRaw(total: real, ws: seq<real>)
    ensures RawShares(-total, ws) == Negated(RawShares(total, ws))
  {
  }

  lemma BalancedRunStops(xs: seq<real>, ws: seq<real>, lo: real, hi: real, k: nat)
    requires |xs| == |ws| && Adjustment(xs, lo, hi) == 0.0
    ensures !Rounds(xs, ws, lo, hi, k).ZeroWeights?
  {
    if k > 0 {
      BalancedRound(xs, ws, lo, hi);
      FirstRound(xs, ws, lo, hi);
      RunStops(xs, ws, lo, hi, 1, k);
    }
  }

  lemma RaisesByThree(total: real, ws: seq<real>, lo: real, hi: real)
    requires NonNegative(ws) && lo <= hi
    ensures Rounds(RawShares(total, ws), ws, lo, hi, 3).ZeroWeights? <==> Raises(total, ws, lo, hi)
  {
    var xs := RawShares(total, ws);
    MirrorRaw(total, ws);
    MirrorAdjustment(xs, lo, hi);
    RaiseHasSurplus(total, ws, lo, hi);
    RaiseHasSurplus(-total, ws, -hi, -lo);
    hide Adjustment, Round, Rounds, RawShares, RaisesAtTop, Negated;
    if Adjustment(xs, lo, hi) > 0.0 {
      SurplusRaises(total, ws, lo, hi);
    } else if Adjustment(xs, lo, hi) < 0.0 {
      SurplusRaises(-total, ws, -hi, -lo);
      MirrorRun(xs, ws, lo, hi, 3);
    } else {
      BalancedRunStops(xs, ws, lo, hi, 3);
    }
  }

  lemma RaiseHasSurplus(total: real, ws: seq<real>, lo: real, hi: real)
    ensures RaisesAtTop(total, ws, lo, hi) ==> Adjustment(RawShares(total, ws), lo, hi) > 0.0
  {
  }

  lemma RaisesOnlyByThree(xs: seq<real>, ws: seq<real>, lo: real, hi: real, k: nat)
    requires |xs| == |ws| && NonNegative(ws) && lo <= hi && Rounds(xs, ws, lo, hi, k).ZeroWeights?
    ensures Rounds(xs, ws, lo, hi, 3) == Rounds(xs, ws, lo, hi, k)
  {
    hide Rounds;
    if Rounds(xs, ws, lo, hi, 3).Looping? {
      DecidedByThree(xs, ws, lo, hi, k);
    } else if k <= 3 {
      RunStops(xs, ws, lo, hi, k, 3);
    } else {
      RunStops(xs, ws, lo, hi, 3, k);
    }
  }

  /**
   The exact condition for the division to raise in some round, for all weights that are not
   negative, all limits and all totals: shares are cut at the upper limit in one of the two ways of
   RaisesAtTop, or at the lower limit in the mirror image.
   */
  lemma RaisesIff(total: real, ws: seq<real>, lo: real, hi: real)
    requires NonNegative(ws) && lo <= hi
    ensures (exists k: nat :: Rounds(RawShares(total, ws), ws, lo, hi, k).ZeroWeights?) <==> Raises(total, ws, lo, hi)
  {
    hide Rounds, RawShares, Raises;
    RaisesByThree(total, ws, lo, hi);
    if k: nat :| Rounds(RawShares(total, ws), ws, lo, hi, k).ZeroWeights? {
      RaisesOnlyByThree(RawShares(total, ws), ws, lo, hi, k);
    }
  }

  /** For a total that is not negative and limits around zero: a weightless feed beside feeds that are all above hi. */
  lemma RaisesAroundZero(total: real, ws: seq<real>, lo: real, hi: real)
    requires NonNegative(ws) && Sum(ws) > 0.0 && lo <= 0.0 <= hi && total >= 0.0
    ensures (exists k: nat :: Rounds(RawShares(total, ws), ws, lo, hi, k).ZeroWeights?) <==>
      (exists z :: 0 <= z < |ws| && ws[z] == 0.0) && (forall i :: 0 <= i < |ws| && ws[i] > 0.0 ==> RawShares(total, ws)[i] > hi)
  {
    RawNotNegative(total, ws);
    TopAroundZero(total, ws, lo, hi);
    NeverAbove(-total, ws, -hi, -lo);
    hide *;
    RaisesIff(total, ws, lo, hi);
    RaisesOnlyAtTop(total, ws, lo, hi);
  }

  lemma RaisesOnlyAtTop(total: real, ws: seq<real>, lo: real, hi: real)
    requires !RaisesAtTop(-total, ws, -hi, -lo)
    ensures Raises(total, ws, lo, hi) <==> RaisesAtTop(total, ws, lo, hi)
  {
  }

  lemma TopAroundZero(total: real, ws: seq<real>, lo: real, hi: real)
    requires NonNegative(ws) && Sum(ws) > 0.0 && lo <= 0.0 <= hi
    requires forall i :: 0 <= i < |ws| ==> RawShares(total, ws)[i] >= 0.0
    ensures RaisesAtTop(total, ws, lo, hi) <==>
      (exists z :: 0 <= z < |ws| && ws[z] == 0.0) && (forall i :: 0 <= i < |ws| && ws[i] > 0.0 ==> RawShares(total, ws)[i] > hi)
  {
    hide Adjustment, RawShares, ShareOf;
    SomeWeight(ws);
    NoneBelow(RawShares(total, ws), lo, hi);
  }

  /** Raw shares of a total that is not positive are never above an upper limit that is not negative. */
  lemma NeverAbove(total: real, ws: seq<real>, lo: real, hi: real)
    requires NonNegative(ws) && Sum(ws) > 0.0 && hi >= 0.0 && total <= 0.0
    ensures !RaisesAtTop(total, ws, lo, hi)
  {
    SomeWeight(ws);
    var w :| 0 <= w < |ws| && ws[w] > 0.0;
    RawNotNegative(-total, ws);
    MirrorRaw(-total, ws);
    assert RawShares(total, ws)[w] == -RawShares(-total, ws)[w];
    hide Adjustment, RawShares, ShareOf;
  }
}
