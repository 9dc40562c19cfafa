/** When the limit loop exits: decided after two passes with positive weights, after three with weights that are not negative. */
module LimitExits {
  import opened Options
  import opened Sums
  import opened LimitLoop
  import opened LimitTheorems
  import opened LimitFairness

  /** What the loop, which has no bound of its own, ends with; None if no round is the last. */
  ghost function LoopExit(xs: seq<real>, ws: seq<real>, lo: real, hi: real): (r: Option<Outcome>)
    requires |xs| == |ws|
    ensures r.Some? ==> exists k: nat :: !Rounds(xs, ws, lo, hi, k).Looping? && r.value == Rounds(xs, ws, lo, hi, k)
    ensures r.Some? ==> !r.value.Looping? && |r.value.values| == |xs|
  {
    if exists k: nat :: !Rounds(xs, ws, lo, hi, k).Looping? then
      var k: nat :| !Rounds(xs, ws, lo, hi, k).Looping?;
      Some(Rounds(xs, ws, lo, hi, k))
    else None
  }

  lemma ExitIs(xs: seq<real>, ws: seq<real>, lo: real, hi: real, k: nat)
    requires |xs| == |ws| && !Rounds(xs, ws, lo, hi, k).Looping?
    ensures LoopExit(xs, ws, lo, hi) == Some(Rounds(xs, ws, lo, hi, k))
  {
    var j: nat :| !Rounds(xs, ws, lo, hi, j).Looping? && LoopExit(xs, ws, lo, hi) == Some(Rounds(xs, ws, lo, hi, j));
    if j <= k {
      RunStops(xs, ws, lo, hi, j, k);
    } else {
      RunStops(xs, ws, lo, hi, k, j);
    }
  }

  // ----- rounds that repeat for ever -----

  /** Nothing is below lo; of two feeds with weight one rests at hi and one is above. */
  ghost predicate Stuck(xs: seq<real>, ws: seq<real>, lo: real, hi: real)
  {
    && |xs| == |ws| && NonNegative(ws) && lo <= hi
    && (forall i :: 0 <= i < |xs| ==> lo <= xs[i])
    && (exists i :: 0 <= i < |xs| && ws[i] > 0.0 && xs[i] == hi)
    && (exists i :: 0 <= i < |xs| && ws[i] > 0.0 && xs[i] > hi)
  }

  lemma StuckGoesOn(xs: seq<real>, ws: seq<real>, lo: real, hi: real)
    requires Stuck(xs, ws, lo, hi)
    ensures Round(xs, ws, lo, hi).Looping? && Stuck(Round(xs, ws, lo, hi).values, ws, lo, hi)
  {
    NoneBelow(xs, lo, hi);
    var a := Adjustment(xs, lo, hi);
    var resting :| 0 <= resting < |xs| && ws[resting] > 0.0 && xs[resting] == hi;
    var over :| 0 <= over < |xs| && ws[over] > 0.0 && xs[over] > hi;
    assert !Locked(xs[resting], a, lo, hi);
    OpenTotalSign(xs, ws, lo, hi);
    SurplusRoundValues(xs, ws, lo, hi);
    var ys := Round(xs, ws, lo, hi).values;
    assert ys[resting] > hi && ys[over] == hi;
  }

  lemma {:induction false} StuckForEver(xs: seq<real>, ws: seq<real>, lo: real, hi: real, m: nat, k: nat)
    requires |xs| == |ws| && m <= k
    requires Rounds(xs, ws, lo, hi, m).Looping? && Stuck(Rounds(xs, ws, lo, hi, m).values, ws, lo, hi)
    ensures Rounds(xs, ws, lo, hi, k).Looping? && Stuck(Rounds(xs, ws, lo, hi, k).values, ws, lo, hi)
    decreases k
  {
    hide Stuck, Round;
    if m < k {
      StuckForEver(xs, ws, lo, hi, m, k - 1);
      StuckGoesOn(Rounds(xs, ws, lo, hi, k - 1).values, ws, lo, hi);
    }
  }

  /** A surplus round that is followed by another one which goes on leaves nothing below lo and a feed with weight above hi. */
  lemma AfterSurplus(xs: seq<real>, ws: seq<real>, lo: real, hi: real)
    requires |xs| == |ws| && NonNegative(ws) && lo <= hi
    requires Adjustment(xs, lo, hi) > 0.0 && Round(xs, ws, lo, hi).Looping?
    ensures var ys := Round(xs, ws, lo, hi).values;
      && (forall i :: 0 <= i < |xs| ==> lo <= ys[i] && (ys[i] > hi ==> ws[i] > 0.0 && xs[i] <= hi))
      && Adjustment(ys, lo, hi) >= 0.0
      && (Adjustment(ys, lo, hi) > 0.0 <==> exists i :: 0 <= i < |xs| && ws[i] > 0.0 && ys[i] > hi)
  {
    SurplusRoundValues(xs, ws, lo, hi);
    var ys := Round(xs, ws, lo, hi).values;
    assert forall i :: 0 <= i < |xs| && ys[i] > hi ==> ws[i] > 0.0;
    NoneBelow(ys, lo, hi);
  }

  /** A feed with weight above hi in a surplus round that goes on, and anything above hi after it: the loop is stuck. */
  lemma WeightedOverSticks(xs: seq<real>, ws: seq<real>, lo: real, hi: real)
    requires |xs| == |ws| && NonNegative(ws) && lo <= hi
    requires Adjustment(xs, lo, hi) > 0.0 && Round(xs, ws, lo, hi).Looping?
    requires exists i :: 0 <= i < |xs| && ws[i] > 0.0 && xs[i] > hi
    requires Adjustment(Round(xs, ws, lo, hi).values, lo, hi) != 0.0
    ensures Stuck(Round(xs, ws, lo, hi).values, ws, lo, hi)
  {
    AfterSurplus(xs, ws, lo, hi);
    SurplusRoundValues(xs, ws, lo, hi);
    var ys := Round(xs, ws, lo, hi).values;
    var over :| 0 <= over < |xs| && ws[over] > 0.0 && xs[over] > hi;
    assert ys[over] == hi;
  }

  lemma UnfoldRounds(xs: seq<real>, ws: seq<real>, lo: real, hi: real, k: nat)
    requires |xs| == |ws| && Rounds(xs, ws, lo, hi, k).Looping?
    ensures Rounds(xs, ws, lo, hi, k + 1) == Round(Rounds(xs, ws, lo, hi, k).values, ws, lo, hi)
  {
  }

  lemma SurplusDecidedByThree(xs: seq<real>, ws: seq<real>, lo: real, hi: real, k: nat)
    requires |xs| == |ws| && NonNegative(ws) && lo <= hi && Adjustment(xs, lo, hi) > 0.0
    requires Rounds(xs, ws, lo, hi, 3).Looping?
    ensures Rounds(xs, ws, lo, hi, k).Looping?
  {
    if k <= 3 {
      RunStops(xs, ws, lo, hi, k, 3);
    } else {
      hide Round, Adjustment, Stuck, NonNegative;
      RunStops(xs, ws, lo, hi, 1, 3);
      RunStops(xs, ws, lo, hi, 2, 3);
      FirstRound(xs, ws, lo, hi);
      UnfoldRounds(xs, ws, lo, hi, 1);
      UnfoldRounds(xs, ws, lo, hi, 2);
      var ys, zs := Rounds(xs, ws, lo, hi, 1).values, Rounds(xs, ws, lo, hi, 2).values;
      AfterSurplus(xs, ws, lo, hi);
      GoesOnAdjusts(ys, ws, lo, hi);
      GoesOnAdjusts(zs, ws, lo, hi);
      WeightedOverSticks(ys, ws, lo, hi);
      StuckForEver(xs, ws, lo, hi, 2, k);
    }
  }

  lemma SurplusDecidedByTwo(xs: seq<real>, ws: seq<real>, lo: real, hi: real, least: real, k: nat)
    requires |xs| == |ws| && Positive(ws, least) && lo <= hi && Adjustment(xs, lo, hi) > 0.0
    requires Rounds(xs, ws, lo, hi, 2).Looping?
    ensures Rounds(xs, ws, lo, hi, k).Looping?
  {
    if k <= 2 {
      RunStops(xs, ws, lo, hi, k, 2);
    } else {
      SomeoneIsOver(xs, lo, hi);
      assert NonNegative(ws);
      assert exists i :: 0 <= i < |xs| && ws[i] > 0.0 && xs[i] > hi;
      hide Round, Adjustment, Stuck, NonNegative, Positive;
      RunStops(xs, ws, lo, hi, 1, 2);
      FirstRound(xs, ws, lo, hi);
      UnfoldRounds(xs, ws, lo, hi, 1);
      GoesOnAdjusts(Rounds(xs, ws, lo, hi, 1).values, ws, lo, hi);
      WeightedOverSticks(xs, ws, lo, hi);
      StuckForEver(xs, ws, lo, hi, 1, k);
    }
  }

  // ----- the theorems -----

  lemma DecidedByTwo(xs: seq<real>, ws: seq<real>, lo: real, hi: real, least: real, k: nat)
    requires |xs| == |ws| && Positive(ws, least) && lo <= hi
    requires Rounds(xs, ws, lo, hi, 2).Looping?
    ensures Rounds(xs, ws, lo, hi, k).Looping?
  {
    hide Round, Rounds, Adjustment, Positive;
    RunStops(xs, ws, lo, hi, 1, 2);
    FirstRound(xs, ws, lo, hi);
    GoesOnAdjusts(xs, ws, lo, hi);
    if Adjustment(xs, lo, hi) > 0.0 {
      SurplusDecidedByTwo(xs, ws, lo, hi, least, k);
    } else {
      MirrorAdjustment(xs, lo, hi);
      MirrorRun(xs, ws, lo, hi, 2);
      MirrorRun(xs, ws, lo, hi, k);
      SurplusDecidedByTwo(Negated(xs), ws, -hi, -lo, least, k);
    }
  }

  /** With positive weights the loop exits within two passes or never. */
  lemma ExitsWithinTwo(xs: seq<real>, ws: seq<real>, lo: real, hi: real, least: real)
    requires |xs| == |ws| && Positive(ws, least) && lo <= hi
    ensures (exists k: nat :: !Rounds(xs, ws, lo, hi, k).Looping?) <==> !Rounds(xs, ws, lo, hi, 2).Looping?
  {
    hide Rounds, Positive;
    if k: nat :| !Rounds(xs, ws, lo, hi, k).Looping? && Rounds(xs, ws, lo, hi, 2).Looping? {
      DecidedByTwo(xs, ws, lo, hi, least, k);
    }
  }

  lemma DecidedByThree(xs: seq<real>, ws: seq<real>, lo: real, hi: real, k: nat)
    requires |xs| == |ws| && NonNegative(ws) && lo <= hi
    requires Rounds(xs, ws, lo, hi, 3).Looping?
    ensures Rounds(xs, ws, lo, hi, k).Looping?
  {
    hide Round, Rounds, Adjustment, NonNegative;
    RunStops(xs, ws, lo, hi, 1, 3);
    FirstRound(xs, ws, lo, hi);
    GoesOnAdjusts(xs, ws, lo, hi);
    if Adjustment(xs, lo, hi) > 0.0 {
      SurplusDecidedByThree(xs, ws, lo, hi, k);
    } else {
      MirrorAdjustment(xs, lo, hi);
      MirrorRun(xs, ws, lo, hi, 3);
      MirrorRun(xs, ws, lo, hi, k);
      SurplusDecidedByThree(Negated(xs), ws, -hi, -lo, k);
    }
  }

  /** With weights that are not negative the loop exits, or raises, within three passes or never. */
  lemma ExitsWithinThree(xs: seq<real>, ws: seq<real>, lo: real, hi: real)
    requires |xs| == |ws| && NonNegative(ws) && lo <= hi
    ensures (exists k: nat :: !Rounds(xs, ws, lo, hi, k).Looping?) <==> !Rounds(xs, ws, lo, hi, 3).Looping?
  {
    hide Rounds, NonNegative;
    if k: nat :| !Rounds(xs, ws, lo, hi, k).Looping? && Rounds(xs, ws, lo, hi, 3).Looping? {
      DecidedByThree(xs, ws, lo, hi, k);
    }
  }

  /** After one redistribution every feed that receives a part of it is within the limits. */
  ghost predicate FitsAtOnce(xs: seq<real>, ws: seq<real>, lo: real, hi: real)
    requires |xs| == |ws| && OpenTotal(xs, ws, lo, hi) != 0.0
  {
    var a, m := Adjustment(xs, lo, hi), OpenTotal(xs, ws, lo, hi);
    forall i :: 0 <= i < |xs| && !Locked(xs[i], a, lo, hi) ==> lo <= Clamp(xs[i], lo, hi) + ShareOf(a, ws[i], m) <= hi
  }

  /** Nothing to redistribute, no weight to redistribute to, or one redistribution is enough. */
  ghost predicate Settles(xs: seq<real>, ws: seq<real>, lo: real, hi: real)
    requires |xs| == |ws|
  {
    Adjustment(xs, lo, hi) == 0.0 || OpenTotal(xs, ws, lo, hi) == 0.0 || FitsAtOnce(xs, ws, lo, hi)
  }

  /** A round that goes on leaves nothing to adjust exactly if every share is then within the limits. */
  lemma BalancedNext(xs: seq<real>, ws: seq<real>, lo: real, hi: real)
    requires |xs| == |ws| && NonNegative(ws) && lo <= hi && Round(xs, ws, lo, hi).Looping?
    ensures var ys := Round(xs, ws, lo, hi).values; Adjustment(ys, lo, hi) == 0.0 <==> Within(ys, lo, hi)
  {
    var ys := Round(xs, ws, lo, hi).values;
    if Within(ys, lo, hi) {
      WithinIsUnadjusted(ys, lo, hi);
    }
    if Adjustment(xs, lo, hi) > 0.0 {
      AfterSurplus(xs, ws, lo, hi);
      NoneBelow(ys, lo, hi);
    } else {
      DeficitBalancedNext(xs, ws, lo, hi);
    }
  }

  lemma DeficitBalancedNext(xs: seq<real>, ws: seq<real>, lo: real, hi: real)
    requires |xs| == |ws| && NonNegative(ws) && lo <= hi
    requires Adjustment(xs, lo, hi) < 0.0 && Round(xs, ws, lo, hi).Looping?
    ensures var ys := Round(xs, ws, lo, hi).values; Adjustment(ys, lo, hi) == 0.0 ==> Within(ys, lo, hi)
  {
    hide Adjustment, Round, NonNegative;
    var ys := Round(xs, ws, lo, hi).values;
    MirrorAdjustment(xs, lo, hi);
    MirrorRound(xs, ws, lo, hi);
    MirrorAdjustment(ys, lo, hi);
    AfterSurplus(Negated(xs), ws, -hi, -lo);
    NoneBelow(Negated(ys), -hi, -lo);
    if Adjustment(ys, lo, hi) == 0.0 {
      NegatedWithin(ys, lo, hi);
    }
  }

  lemma NegatedWithin(ys: seq<real>, lo: real, hi: real)
    requires Within(Negated(ys), -hi, -lo)
    ensures Within(ys, lo, hi)
  {
    forall i | 0 <= i < |ys| ensures lo <= ys[i] <= hi {
      assert -hi <= Negated(ys)[i] <= -lo;
    }
  }

  lemma FitsIsWithin(xs: seq<real>, ws: seq<real>, lo: real, hi: real)
    requires |xs| == |ws| && lo <= hi && Round(xs, ws, lo, hi).Looping?
    ensures OpenTotal(xs, ws, lo, hi) != 0.0
    ensures FitsAtOnce(xs, ws, lo, hi) <==> Within(Round(xs, ws, lo, hi).values, lo, hi)
  {
    var m := OpenTotal(xs, ws, lo, hi);
    var ys := Round(xs, ws, lo, hi).values;
    hide Round, Adjustment, ShareOf, OpenTotal;
    forall i | 0 <= i < |xs|
      ensures m != 0.0
      ensures ys[i] == Clamp(xs[i], lo, hi)
        + if Locked(xs[i], Adjustment(xs, lo, hi), lo, hi) then 0.0 else ShareOf(Adjustment(xs, lo, hi), ws[i], m)
    {
      RoundValue(xs, ws, lo, hi, i, m);
    }
    NonEmptyRound(xs, ws, lo, hi);
  }

  lemma NonEmptyRound(xs: seq<real>, ws: seq<real>, lo: real, hi: real)
    requires |xs| == |ws| && Round(xs, ws, lo, hi).Looping?
    ensures OpenTotal(xs, ws, lo, hi) != 0.0
  {
  }

  /** A round goes on exactly if there is something to redistribute and weight to redistribute it to. */
  lemma GoesOnIff(xs: seq<real>, ws: seq<real>, lo: real, hi: real)
    requires |xs| == |ws|
    ensures Round(xs, ws, lo, hi).Looping? <==> Adjustment(xs, lo, hi) != 0.0 && OpenTotal(xs, ws, lo, hi) != 0.0
  {
    var a := Adjustment(xs, lo, hi);
    if AllLocked(xs, a, lo, hi) {
      SumZeros(OpenWeights(xs, ws, a, lo, hi));
    }
  }

  /** Shares settle exactly if no round follows the first one except to find nothing to adjust. */
  lemma SettlesAfterRound(xs: seq<real>, ws: seq<real>, lo: real, hi: real)
    requires |xs| == |ws| && NonNegative(ws) && lo <= hi
    ensures Settles(xs, ws, lo, hi) <==>
      !Round(xs, ws, lo, hi).Looping? || Adjustment(Round(xs, ws, lo, hi).values, lo, hi) == 0.0
  {
    hide Round, Adjustment, OpenTotal, FitsAtOnce, NonNegative;
    GoesOnIff(xs, ws, lo, hi);
    if Round(xs, ws, lo, hi).Looping? {
      BalancedNext(xs, ws, lo, hi);
      FitsIsWithin(xs, ws, lo, hi);
    }
  }

  /**
   The exact exit condition for positive weights, on the input: the loop exits if and only if there
   is nothing to adjust, or every share is past the same limit, or one redistribution brings every
   feed it reaches within the limits.
   */
  lemma ExitsIffSettles(xs: seq<real>, ws: seq<real>, lo: real, hi: real, least: real)
    requires |xs| == |ws| && Positive(ws, least) && lo <= hi
    ensures LoopExit(xs, ws, lo, hi).Some? <==> Settles(xs, ws, lo, hi)
    ensures OpenTotal(xs, ws, lo, hi) == 0.0 <==> AllLocked(xs, Adjustment(xs, lo, hi), lo, hi)
  {
    OpenUnlessAllLocked(xs, ws, lo, hi, least);
    hide *;
    SettlesIsExitByTwo(xs, ws, lo, hi, least);
    ExitsWithinTwo(xs, ws, lo, hi, least);
    LoopExitExists(xs, ws, lo, hi);
  }

  lemma OpenUnlessAllLocked(xs: seq<real>, ws: seq<real>, lo: real, hi: real, least: real)
    requires |xs| == |ws| && Positive(ws, least)
    ensures OpenTotal(xs, ws, lo, hi) == 0.0 <==> AllLocked(xs, Adjustment(xs, lo, hi), lo, hi)
  {
    var a := Adjustment(xs, lo, hi);
    if AllLocked(xs, a, lo, hi) {
      SumZeros(OpenWeights(xs, ws, a, lo, hi));
    } else {
      var j :| 0 <= j < |xs| && !Locked(xs[j], a, lo, hi);
      OpenWeightsPositive(xs, ws, a, lo, hi, least, j);
    }
  }

  lemma LoopExitExists(xs: seq<real>, ws: seq<real>, lo: real, hi: real)
    requires |xs| == |ws|
    ensures LoopExit(xs, ws, lo, hi).Some? <==> exists k: nat :: !Rounds(xs, ws, lo, hi, k).Looping?
  {
    if k: nat :| !Rounds(xs, ws, lo, hi, k).Looping? {
      ExitIs(xs, ws, lo, hi, k);
    }
  }

  lemma SettlesIsExitByTwo(xs: seq<real>, ws: seq<real>, lo: real, hi: real, least: real)
    requires |xs| == |ws| && Positive(ws, least) && lo <= hi
    ensures !Rounds(xs, ws, lo, hi, 2).Looping? <==> Settles(xs, ws, lo, hi)
  {
    PositiveIsNonNegative(ws, least);
    hide Round, Rounds, Adjustment, Settles, Positive, NonNegative;
    FirstRound(xs, ws, lo, hi);
    SettlesAfterRound(xs, ws, lo, hi);
    if Round(xs, ws, lo, hi).Looping? {
      UnfoldRounds(xs, ws, lo, hi, 1);
      SecondGoesOn(xs, ws, lo, hi, least);
    } else {
      RunStops(xs, ws, lo, hi, 1, 2);
    }
  }

  /** With positive weights the second round never saturates or raises: a locked feed of the first rests at a limit. */
  lemma SecondGoesOn(xs: seq<real>, ws: seq<real>, lo: real, hi: real, least: real)
    requires |xs| == |ws| && Positive(ws, least) && lo <= hi && Round(xs, ws, lo, hi).Looping?
    ensures var ys := Round(xs, ws, lo, hi).values;
      Round(ys, ws, lo, hi).Looping? <==> Adjustment(ys, lo, hi) != 0.0
  {
    var ys := Round(xs, ws, lo, hi).values;
    PositiveNeverRaises(ys, ws, lo, hi, least);
    var i := LockedFeedRests(xs, ws, lo, hi);
    assert !Locked(ys[i], Adjustment(ys, lo, hi), lo, hi);
  }

  /** Every feed past the limit that shares are cut at weighs nothing. */
  ghost predicate OnlyWeightlessPast(xs: seq<real>, ws: seq<real>, lo: real, hi: real)
    requires |xs| == |ws|
  {
    forall i :: 0 <= i < |xs| && Locked(xs[i], Adjustment(xs, lo, hi), lo, hi) ==> ws[i] == 0.0
  }

  /** The clamped shares with the adjustment split over all weights. */
  function Lifted(xs: seq<real>, ws: seq<real>, lo: real, hi: real): (vs: seq<real>)
    requires |xs| == |ws| && Sum(ws) != 0.0
    ensures |vs| == |xs|
  {
    seq(|xs|, i requires 0 <= i < |xs| => Clamp(xs[i], lo, hi) + ShareOf(Adjustment(xs, lo, hi), ws[i], Sum(ws)))
  }

  /** Only feeds without weight are past the limit, and the shares settle once the adjustment is split over all the others. */
  ghost predicate SettlesLater(xs: seq<real>, ws: seq<real>, lo: real, hi: real)
    requires |xs| == |ws|
  {
    Sum(ws) != 0.0 && OnlyWeightlessPast(xs, ws, lo, hi) && Settles(Lifted(xs, ws, lo, hi), ws, lo, hi)
  }

  /**
   The exact exit condition for weights that are not negative: the loop exits, or raises, if and
   only if the shares settle, or settle later because only feeds without weight are past the limit.
   */
  lemma ExitsIffSettlesTwice(xs: seq<real>, ws: seq<real>, lo: real, hi: real)
    requires |xs| == |ws| && NonNegative(ws) && lo <= hi
    ensures LoopExit(xs, ws, lo, hi).Some? <==> Settles(xs, ws, lo, hi) || SettlesLater(xs, ws, lo, hi)
  {
    hide *;
    SettlesIsExitByThree(xs, ws, lo, hi);
    ExitsWithinThree(xs, ws, lo, hi);
    LoopExitExists(xs, ws, lo, hi);
    if !Settles(xs, ws, lo, hi) {
      LaterIsSecond(xs, ws, lo, hi);
    }
  }

  lemma LiftedRound(xs: seq<real>, ws: seq<real>, lo: real, hi: real)
    requires |xs| == |ws| && OnlyWeightlessPast(xs, ws, lo, hi) && Round(xs, ws, lo, hi).Looping?
    ensures Sum(ws) == OpenTotal(xs, ws, lo, hi) != 0.0
    ensures Round(xs, ws, lo, hi).values == Lifted(xs, ws, lo, hi)
  {
    var a := Adjustment(xs, lo, hi);
    assert OpenWeights(xs, ws, a, lo, hi) == ws;
    GoesOnIff(xs, ws, lo, hi);
    hide Round, Adjustment, ShareOf, Sum;
    var ys, vs := Round(xs, ws, lo, hi).values, Lifted(xs, ws, lo, hi);
    forall i | 0 <= i < |xs| ensures ys[i] == vs[i] {
      RoundValue(xs, ws, lo, hi, i, OpenTotal(xs, ws, lo, hi));
      NothingShared(a, Sum(ws));
    }
  }

  lemma LaterIsSecond(xs: seq<real>, ws: seq<real>, lo: real, hi: real)
    requires |xs| == |ws| && NonNegative(ws) && lo <= hi && !Settles(xs, ws, lo, hi)
    ensures Round(xs, ws, lo, hi).Looping?
    ensures SettlesLater(xs, ws, lo, hi) <==> Settles(Round(xs, ws, lo, hi).values, ws, lo, hi)
    ensures SettlesLater(xs, ws, lo, hi) ==> Round(xs, ws, lo, hi).values == Lifted(xs, ws, lo, hi)
  {
    SettlesAfterRound(xs, ws, lo, hi);
    hide Round, Adjustment, Settles, NonNegative, Lifted;
    if OnlyWeightlessPast(xs, ws, lo, hi) {
      LiftedRound(xs, ws, lo, hi);
    } else {
      var i :| 0 <= i < |xs| && Locked(xs[i], Adjustment(xs, lo, hi), lo, hi) && ws[i] != 0.0;
      SticksOn(xs, ws, lo, hi, i);
      SettlesAfterRound(Round(xs, ws, lo, hi).values, ws, lo, hi);
    }
  }

  /** A feed with weight past the limit, and something to adjust in the next round: the two rounds after that have as well. */
  lemma SticksOn(xs: seq<real>, ws: seq<real>, lo: real, hi: real, i: nat)
    requires |xs| == |ws| && NonNegative(ws) && lo <= hi && Round(xs, ws, lo, hi).Looping?
    requires i < |xs| && Locked(xs[i], Adjustment(xs, lo, hi), lo, hi) && ws[i] != 0.0
    requires Adjustment(Round(xs, ws, lo, hi).values, lo, hi) != 0.0
    ensures var ys := Round(xs, ws, lo, hi).values;
      Round(ys, ws, lo, hi).Looping? && Adjustment(Round(ys, ws, lo, hi).values, lo, hi) != 0.0
  {
    GoesOnAdjusts(xs, ws, lo, hi);
    assert ws[i] > 0.0;
    hide Round, Adjustment, NonNegative, Negated;
    var ys := Round(xs, ws, lo, hi).values;
    if Adjustment(xs, lo, hi) > 0.0 {
      SurplusSticksOn(xs, ws, lo, hi, i);
    } else {
      MirrorAdjustment(xs, lo, hi);
      MirrorRound(xs, ws, lo, hi);
      MirrorAdjustment(ys, lo, hi);
      MirrorRound(ys, ws, lo, hi);
      MirrorAdjustment(Round(ys, ws, lo, hi).values, lo, hi);
      assert Negated(xs)[i] == -xs[i] by { NegatedAt(xs, i); }
      SurplusSticksOn(Negated(xs), ws, -hi, -lo, i);
    }
  }

  lemma NegatedAt(xs: seq<real>, i: nat)
    requires i < |xs|
    ensures Negated(xs)[i] == -xs[i]
  {
  }

  lemma SurplusSticksOn(xs: seq<real>, ws: seq<real>, lo: real, hi: real, i: nat)
    requires |xs| == |ws| && NonNegative(ws) && lo <= hi && Adjustment(xs, lo, hi) > 0.0 && Round(xs, ws, lo, hi).Looping?
    requires i < |xs| && xs[i] > hi && ws[i] > 0.0
    requires Adjustment(Round(xs, ws, lo, hi).values, lo, hi) != 0.0
    ensures var ys := Round(xs, ws, lo, hi).values;
      Round(ys, ws, lo, hi).Looping? && Adjustment(Round(ys, ws, lo, hi).values, lo, hi) != 0.0
  {
    hide Round, Adjustment, NonNegative, Stuck;
    WeightedOverSticks(xs, ws, lo, hi);
    StuckGoesOn(Round(xs, ws, lo, hi).values, ws, lo, hi);
    StuckAdjusts(Round(Round(xs, ws, lo, hi).values, ws, lo, hi).values, ws, lo, hi);
  }

  lemma StuckAdjusts(xs: seq<real>, ws: seq<real>, lo: real, hi: real)
    requires Stuck(xs, ws, lo, hi)
    ensures Adjustment(xs, lo, hi) > 0.0
  {
    NoneBelow(xs, lo, hi);
  }

  lemma SettlesIsExitByThree(xs: seq<real>, ws: seq<real>, lo: real, hi: real)
    requires |xs| == |ws| && NonNegative(ws) && lo <= hi
    ensures !Rounds(xs, ws, lo, hi, 3).Looping? <==>
      Settles(xs, ws, lo, hi) || Settles(Round(xs, ws, lo, hi).values, ws, lo, hi)
  {
    hide Round, Rounds, Adjustment, Settles, NonNegative;
    FirstRound(xs, ws, lo, hi);
    SettlesAfterRound(xs, ws, lo, hi);
    if Round(xs, ws, lo, hi).Looping? {
      UnfoldRounds(xs, ws, lo, hi, 1);
      var ys := Round(xs, ws, lo, hi).values;
      SettlesAfterRound(ys, ws, lo, hi);
      if Round(ys, ws, lo, hi).Looping? {
        GoesOnAdjusts(ys, ws, lo, hi);
        UnfoldRounds(xs, ws, lo, hi, 2);
        ThirdGoesOn(xs, ws, lo, hi);
      } else {
        RunStops(xs, ws, lo, hi, 2, 3);
      }
    } else {
      RunStops(xs, ws, lo, hi, 1, 3);
    }
  }

  /** The third round never saturates or raises: a feed with weight rests at a limit and another is above it. */
  lemma ThirdGoesOn(xs: seq<real>, ws: seq<real>, lo: real, hi: real)
    requires |xs| == |ws| && NonNegative(ws) && lo <= hi && Round(xs, ws, lo, hi).Looping?
    requires Round(Round(xs, ws, lo, hi).values, ws, lo, hi).Looping?
    ensures var zs := Round(Round(xs, ws, lo, hi).values, ws, lo, hi).values;
      Round(zs, ws, lo, hi).Looping? <==> Adjustment(zs, lo, hi) != 0.0
  {
    hide Round, Adjustment, NonNegative, Negated, Stuck;
    var ys := Round(xs, ws, lo, hi).values;
    var zs := Round(ys, ws, lo, hi).values;
    GoesOnAdjusts(xs, ws, lo, hi);
    if Round(zs, ws, lo, hi).Looping? {
      GoesOnAdjusts(zs, ws, lo, hi);
    } else if Adjustment(zs, lo, hi) != 0.0 {
      if Adjustment(xs, lo, hi) > 0.0 {
        SurplusThirdGoesOn(xs, ws, lo, hi);
      } else {
        MirrorAdjustment(xs, lo, hi);
        MirrorRound(xs, ws, lo, hi);
        MirrorRound(ys, ws, lo, hi);
        MirrorRound(zs, ws, lo, hi);
        MirrorAdjustment(zs, lo, hi);
        SurplusThirdGoesOn(Negated(xs), ws, -hi, -lo);
      }
    }
  }

  lemma SurplusThirdGoesOn(xs: seq<real>, ws: seq<real>, lo: real, hi: real)
    requires |xs| == |ws| && NonNegative(ws) && lo <= hi && Adjustment(xs, lo, hi) > 0.0 && Round(xs, ws, lo, hi).Looping?
    requires Round(Round(xs, ws, lo, hi).values, ws, lo, hi).Looping?
    requires Adjustment(Round(Round(xs, ws, lo, hi).values, ws, lo, hi).values, lo, hi) != 0.0
    ensures Round(Round(Round(xs, ws, lo, hi).values, ws, lo, hi).values, ws, lo, hi).Looping?
  {
    hide Round, Adjustment, NonNegative, Stuck;
    var ys := Round(xs, ws, lo, hi).values;
    AfterSurplus(xs, ws, lo, hi);
    GoesOnAdjusts(ys, ws, lo, hi);
    WeightedOverSticks(ys, ws, lo, hi);
    StuckGoesOn(Round(ys, ws, lo, hi).values, ws, lo, hi);
  }

  // ----- what the loop exits with -----

  lemma {:induction false} RunAfterRound(xs: seq<real>, ws: seq<real>, lo: real, hi: real, k: nat)
    requires |xs| == |ws| && Round(xs, ws, lo, hi).Looping?
    ensures Rounds(xs, ws, lo, hi, k + 1) == Rounds(Round(xs, ws, lo, hi).values, ws, lo, hi, k)
  {
    hide Round;
    if k == 0 {
      FirstRound(xs, ws, lo, hi);
    } else {
      RunAfterRound(xs, ws, lo, hi, k - 1);
    }
  }

  /** What one redistribution makes of a share. */
  function ShareAfter(xs: seq<real>, ws: seq<real>, lo: real, hi: real, i: nat): real
    requires |xs| == |ws| && i < |xs|
  {
    var a, m := Adjustment(xs, lo, hi), OpenTotal(xs, ws, lo, hi);
    Clamp(xs[i], lo, hi) + if a == 0.0 || m == 0.0 || Locked(xs[i], a, lo, hi) then 0.0 else ShareOf(a, ws[i], m)
  }

  lemma RoundGives(xs: seq<real>, ws: seq<real>, lo: real, hi: real, i: nat)
    requires |xs| == |ws| && i < |xs|
    ensures Round(xs, ws, lo, hi).values[i] == ShareAfter(xs, ws, lo, hi, i)
  {
    GoesOnIff(xs, ws, lo, hi);
    if Round(xs, ws, lo, hi).Looping? {
      RoundValue(xs, ws, lo, hi, i, OpenTotal(xs, ws, lo, hi));
    }
  }

  /** Shares that settle: the loop exits with what one redistribution makes of them. */
  lemma SettledExit(xs: seq<real>, ws: seq<real>, lo: real, hi: real, i: nat)
    requires |xs| == |ws| && NonNegative(ws) && lo <= hi && i < |xs| && Settles(xs, ws, lo, hi)
    ensures var e := LoopExit(xs, ws, lo, hi);
      e.Some? && e.value.values[i] == ShareAfter(xs, ws, lo, hi, i) && lo <= e.value.values[i] <= hi
  {
    hide Settles, NonNegative, ShareAfter, Round;
    RoundGives(xs, ws, lo, hi, i);
    FirstRound(xs, ws, lo, hi);
    SettlesAfterRound(xs, ws, lo, hi);
    var ys := Round(xs, ws, lo, hi).values;
    if Round(xs, ws, lo, hi).Looping? {
      UnfoldRounds(xs, ws, lo, hi, 1);
      BalancedNext(xs, ws, lo, hi);
      LastRoundClamps(ys, ws, lo, hi);
      ExitIs(xs, ws, lo, hi, 2);
      ExitedIsClamped(xs, ws, lo, hi, 2, i);
    } else {
      ExitIs(xs, ws, lo, hi, 1);
      ExitedIsClamped(xs, ws, lo, hi, 1, i);
    }
  }

  /**
   In closed form, what the loop exits with for all weights that are not negative: one
   redistribution of the raw shares or, if only feeds without weight are past the limit and that
   is not enough, of the raw shares with the adjustment split over all the others.
   */
  lemma ExitShare(xs: seq<real>, ws: seq<real>, lo: real, hi: real, i: nat)
    requires |xs| == |ws| && NonNegative(ws) && lo <= hi && i < |xs|
    requires Settles(xs, ws, lo, hi) || SettlesLater(xs, ws, lo, hi)
    ensures var e := LoopExit(xs, ws, lo, hi);
      && e.Some? && lo <= e.value.values[i] <= hi
      && e.value.values[i] == ShareAfter(if Settles(xs, ws, lo, hi) then xs else Lifted(xs, ws, lo, hi), ws, lo, hi, i)
  {
    if Settles(xs, ws, lo, hi) {
      SettledExit(xs, ws, lo, hi, i);
    } else {
      var vs := Lifted(xs, ws, lo, hi);
      assert Settles(vs, ws, lo, hi);
      LaterIsSecond(xs, ws, lo, hi);
      hide Settles, SettlesLater, NonNegative, ShareAfter, Round, Rounds, LoopExit, Lifted;
      SettledExit(vs, ws, lo, hi, i);
      var k: nat :| !Rounds(vs, ws, lo, hi, k).Looping? && LoopExit(vs, ws, lo, hi).value == Rounds(vs, ws, lo, hi, k);
      RunAfterRound(xs, ws, lo, hi, k);
      ExitIs(xs, ws, lo, hi, k + 1);
    }
  }
}
