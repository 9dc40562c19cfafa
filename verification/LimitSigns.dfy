/** Exactly which weights keep every run one-sided, every surplus run in order, and every division from raising. */
module LimitSigns {
  import opened Sums
  import opened LimitLoop
  import opened LimitParts
  import opened LimitTheorems
  import opened LimitFairness

  // ----- shares that open exactly one part -----

  /** The feeds of the part hold v, the others one more than hi. */
  function Split(part: seq<bool>, v: real, hi: real): (xs: seq<real>)
    ensures |xs| == |part|
  {
    seq(|part|, i requires 0 <= i < |part| => if part[i] then v else hi + 1.0)
  }

  /** How much of such shares is over the limit, which depends on the part alone. */
  function Excess(part: seq<bool>): real
  {
    Sum(seq(|part|, i requires 0 <= i < |part| => if part[i] then 0.0 else 1.0))
  }

  lemma SplitAdjustment(part: seq<bool>, v: real, lo: real, hi: real)
    requires Proper(part) && lo <= v <= hi
    ensures Adjustment(Split(part, v, hi), lo, hi) == Excess(part) > 0.0
    ensures OpenPart(Split(part, v, hi), lo, hi) == part
  {
    var xs := Split(part, v, hi);
    var i :| 0 <= i < |part| && !part[i];
    assert xs[i] > hi;
    NoneBelow(xs, lo, hi);
    AddedTotal(Clamped(xs, lo, hi), seq(|part|, n requires 0 <= n < |part| => if part[n] then 0.0 else 1.0), xs);
  }

  /** A round over such shares splits the excess over the part. */
  lemma SplitRound(ws: seq<real>, part: seq<bool>, v: real, lo: real, hi: real)
    requires |ws| == |part| && Proper(part) && lo <= v <= hi
    ensures var o := Round(Split(part, v, hi), ws, lo, hi);
      if Weight(ws, part) == 0.0 then o.ZeroWeights?
      else o.Looping? && forall i :: 0 <= i < |ws| ==>
        o.values[i] == if part[i] then v + ShareOf(Excess(part), ws[i], Weight(ws, part)) else hi
  {
    var xs := Split(part, v, hi);
    SplitAdjustment(part, v, lo, hi);
    OpenPartIs(xs, ws, lo, hi);
    var j :| 0 <= j < |part| && part[j];
    assert !Locked(xs[j], Adjustment(xs, lo, hi), lo, hi);
    hide Adjustment, Weight, Excess, ShareOf;
    var o := Round(xs, ws, lo, hi);
    if Weight(ws, part) != 0.0 {
      forall i | 0 <= i < |ws|
        ensures o.values[i] == if part[i] then v + ShareOf(Excess(part), ws[i], Weight(ws, part)) else hi
      {
        RoundValue(xs, ws, lo, hi, i, OpenTotal(xs, ws, lo, hi));
      }
    }
  }

  lemma {:induction false} UpperBound(ss: seq<real>) returns (b: real)
    ensures b >= 0.0 && forall i :: 0 <= i < |ss| ==> ss[i] <= b
  {
    if ss == [] {
      b := 0.0;
    } else {
      b := UpperBound(ss[..|ss| - 1]);
      if ss[|ss| - 1] > b {
        b := ss[|ss| - 1];
      }
      assert forall i :: 0 <= i < |ss| - 1 ==> ss[..|ss| - 1][i] == ss[i];
    }
  }

  /** An upper limit that no part of the excess exceeds. */
  lemma EnoughRoom(ws: seq<real>, part: seq<bool>) returns (b: real)
    requires |ws| == |part| && Weight(ws, part) != 0.0
    ensures b >= 0.0 && forall i :: 0 <= i < |ws| ==> ShareOf(Excess(part), ws[i], Weight(ws, part)) <= b
  {
    var ss := seq(|ws|, i requires 0 <= i < |ws| => ShareOf(Excess(part), ws[i], Weight(ws, part)));
    b := UpperBound(ss);
    forall i | 0 <= i < |ws| ensures ShareOf(Excess(part), ws[i], Weight(ws, part)) <= b {
      assert ss[i] <= b;
    }
  }

  // ----- one-sided runs -----

  /** After k rounds no clamped share has moved against the sign of the first adjustment, and neither has the adjustment. */
  ghost predicate OneSidedRun(xs: seq<real>, ws: seq<real>, lo: real, hi: real, k: nat)
    requires |xs| == |ws|
  {
    var o := Rounds(xs, ws, lo, hi, k);
    && (forall i :: 0 <= i < |xs| ==>
          if Adjustment(xs, lo, hi) >= 0.0 then Clamp(xs[i], lo, hi) <= Clamp(o.values[i], lo, hi)
          else Clamp(xs[i], lo, hi) >= Clamp(o.values[i], lo, hi))
    && (o.Looping? ==>
          if Adjustment(xs, lo, hi) >= 0.0 then Adjustment(o.values, lo, hi) >= 0.0
          else Adjustment(o.values, lo, hi) <= 0.0)
  }

  ghost predicate AlwaysOneSided(ws: seq<real>)
  {
    forall xs: seq<real>, lo, hi, k: nat :: |xs| == |ws| && lo <= hi ==> OneSidedRun(xs, ws, lo, hi, k)
  }

  lemma OppositeShare(a: real, w: real, m: real)
    requires a > 0.0 && ((m > 0.0 && w < 0.0) || (m < 0.0 && w > 0.0))
    ensures ShareOf(a, w, m) < 0.0
  {
    var q := w / m;
    assert q * m == w;
    assert q < 0.0;
  }

  /** A proper part with a weight of the opposite sign lets a surplus turn into a deficit in one round. */
  lemma TurnsIntoDeficit(ws: seq<real>, part: seq<bool>) returns (xs: seq<real>, lo: real, hi: real)
    requires |part| == |ws| && Proper(part) && !Agrees(ws, part)
    ensures |xs| == |ws| && lo <= hi && Adjustment(xs, lo, hi) > 0.0
    ensures Round(xs, ws, lo, hi).Looping? && Adjustment(Round(xs, ws, lo, hi).values, lo, hi) < 0.0
  {
    var m := Weight(ws, part);
    var i :| 0 <= i < |ws| && part[i] && ((m > 0.0 && ws[i] < 0.0) || (m < 0.0 && ws[i] > 0.0));
    lo := 0.0;
    hi := EnoughRoom(ws, part);
    xs := Split(part, lo, hi);
    SplitAdjustment(part, lo, lo, hi);
    SplitRound(ws, part, lo, lo, hi);
    var ys := Round(xs, ws, lo, hi).values;
    hide Round, Weight, Excess, ShareOf, Agrees;
    OppositeShare(Excess(part), ws[i], m);
    SumGap(ys, Clamped(ys, lo, hi), i);
  }

  /** Over all shares and limits runs are one-sided if and only if the signs of the weights agree in every proper part. */
  lemma OneSidedIff(ws: seq<real>)
    ensures AlwaysOneSided(ws) <==> SameSigns(ws)
  {
    hide SameSigns, Agrees, Round;
    if SameSigns(ws) {
      forall xs: seq<real>, lo, hi, k: nat | |xs| == |ws| && lo <= hi ensures OneSidedRun(xs, ws, lo, hi, k) {
        OneSided(xs, ws, lo, hi, 0, k);
      }
    } else {
      var part := Disagreement(ws);
      var xs, lo, hi := TurnsIntoDeficit(ws, part);
      FirstRound(xs, ws, lo, hi);
      assert !OneSidedRun(xs, ws, lo, hi, 1);
    }
  }

  lemma Disagreement(ws: seq<real>) returns (part: seq<bool>)
    requires !SameSigns(ws)
    ensures |part| == |ws| && Proper(part) && !Agrees(ws, part)
  {
    part :| |part| == |ws| && Proper(part) && !Agrees(ws, part);
  }

  // ----- surplus runs in order -----

  /** From all shares in order after clamping, surplus runs stay one-sided and in order. */
  ghost predicate AlwaysOrdered(ws: seq<real>)
  {
    forall xs: seq<real>, lo, hi, k: nat :: Ordered(xs, ws, lo, hi) && lo <= hi && Adjustment(xs, lo, hi) >= 0.0 ==>
      OneSidedRun(xs, ws, lo, hi, k) && Ordered(Rounds(xs, ws, lo, hi, k).values, ws, lo, hi)
  }

  /** A proper part with a weight of the opposite sign: a share at the upper limit falls, with all clamped shares equal before. */
  lemma FallsFromTop(ws: seq<real>, part: seq<bool>)
    requires |part| == |ws| && Proper(part) && !Agrees(ws, part)
    ensures var xs := Split(part, 0.0, 0.0);
      && Ordered(xs, ws, -1.0, 0.0) && Adjustment(xs, -1.0, 0.0) > 0.0
      && !OneSidedRun(xs, ws, -1.0, 0.0, 1)
  {
    var m := Weight(ws, part);
    var i :| 0 <= i < |ws| && part[i] && ((m > 0.0 && ws[i] < 0.0) || (m < 0.0 && ws[i] > 0.0));
    var xs := Split(part, 0.0, 0.0);
    SplitAdjustment(part, 0.0, -1.0, 0.0);
    SplitRound(ws, part, 0.0, -1.0, 0.0);
    FirstRound(xs, ws, -1.0, 0.0);
    hide Round, Weight, Excess, ShareOf, Agrees, Adjustment;
    OppositeShare(Excess(part), ws[i], m);
    assert Clamp(xs[i], -1.0, 0.0) == 0.0;
    assert Clamp(Rounds(xs, ws, -1.0, 0.0, 1).values[i], -1.0, 0.0) < 0.0;
  }

  lemma LighterGainsMore(a: real, w: real, v: real, m: real)
    requires a > 0.0 && m < 0.0 && v < w <= 0.0
    ensures 0.0 <= ShareOf(a, w, m) < ShareOf(a, v, m)
  {
    var p, q := w / m, v / m;
    assert p * m == w && q * m == v;
    assert 0.0 <= p < q;
  }

  /** A proper lower part of negative weight with two different weights loses the order in one round. */
  lemma LosesOrder(ws: seq<real>, part: seq<bool>) returns (xs: seq<real>, lo: real, hi: real)
    requires Lower(ws, part) && Proper(part) && Agrees(ws, part) && Weight(ws, part) < 0.0 && !Uniform(ws, part)
    ensures Ordered(xs, ws, lo, hi) && lo <= hi && Adjustment(xs, lo, hi) > 0.0
    ensures !Ordered(Round(xs, ws, lo, hi).values, ws, lo, hi)
  {
    var i, j :| 0 <= i < |ws| && 0 <= j < |ws| && part[i] && part[j] && ws[i] > ws[j];
    assert ws[i] <= 0.0;
    lo := 0.0;
    hi := EnoughRoom(ws, part);
    xs := Split(part, lo, hi);
    SplitAdjustment(part, lo, lo, hi);
    SplitRound(ws, part, lo, lo, hi);
    var ys := Round(xs, ws, lo, hi).values;
    hide Round, Weight, Excess, ShareOf, Agrees, Adjustment;
    LighterGainsMore(Excess(part), ws[i], ws[j], Weight(ws, part));
    assert Clamp(ys[i], lo, hi) < Clamp(ys[j], lo, hi);
  }

  /**
   Surplus runs from shares in the order of weights stay one-sided and in order, over all such
   shares and all limits, if and only if the weights meet both conditions on their signs.
   */
  lemma OrderedIff(ws: seq<real>)
    ensures AlwaysOrdered(ws) <==> SameSigns(ws) && Graded(ws)
  {
    hide SameSigns, Agrees, Round, Graded, Ordered, OneSidedRun;
    if SameSigns(ws) && Graded(ws) {
      forall xs: seq<real>, lo, hi, k: nat | Ordered(xs, ws, lo, hi) && lo <= hi && Adjustment(xs, lo, hi) >= 0.0
        ensures |xs| == |ws| && OneSidedRun(xs, ws, lo, hi, k) && Ordered(Rounds(xs, ws, lo, hi, k).values, ws, lo, hi)
      {
        StaysOrdered(xs, ws, lo, hi, k);
      }
    } else if !SameSigns(ws) {
      var part := Disagreement(ws);
      FallsFromTop(ws, part);
    } else {
      var part := Disorder(ws);
      var xs, lo, hi := LosesOrder(ws, part);
      OrderedLength(xs, ws, lo, hi);
      FirstRound(xs, ws, lo, hi);
    }
  }

  lemma StaysOrdered(xs: seq<real>, ws: seq<real>, lo: real, hi: real, k: nat)
    requires Ordered(xs, ws, lo, hi) && SameSigns(ws) && Graded(ws) && lo <= hi && Adjustment(xs, lo, hi) >= 0.0
    ensures |xs| == |ws| && OneSidedRun(xs, ws, lo, hi, k) && Ordered(Rounds(xs, ws, lo, hi, k).values, ws, lo, hi)
  {
    hide SameSigns, Graded;
    OneSided(xs, ws, lo, hi, 0, k);
    OrderedRun(xs, ws, lo, hi, k);
  }

  lemma OrderedLength(xs: seq<real>, ws: seq<real>, lo: real, hi: real)
    requires Ordered(xs, ws, lo, hi)
    ensures |xs| == |ws|
  {
  }

  lemma Disorder(ws: seq<real>) returns (part: seq<bool>)
    requires SameSigns(ws) && !Graded(ws)
    ensures Lower(ws, part) && Proper(part) && Agrees(ws, part) && Weight(ws, part) < 0.0 && !Uniform(ws, part)
  {
    part :| Lower(ws, part) && Proper(part) && Weight(ws, part) < 0.0 && !Uniform(ws, part);
  }

  // ----- divisions that raise -----

  /** No round over any shares and any limits raises if no proper part of the feeds weighs nothing. */
  lemma {:induction false} NoZeroPartNoRaise(xs: seq<real>, ws: seq<real>, lo: real, hi: real, k: nat)
    requires |xs| == |ws| && NoZeroPart(ws)
    ensures !Rounds(xs, ws, lo, hi, k).ZeroWeights?
  {
    hide NoZeroPart, Round;
    if k > 0 {
      NoZeroPartNoRaise(xs, ws, lo, hi, k - 1);
      if Rounds(xs, ws, lo, hi, k - 1).Looping? {
        NoRaiseInRound(Rounds(xs, ws, lo, hi, k - 1).values, ws, lo, hi);
      }
    }
  }

  lemma NoRaiseInRound(xs: seq<real>, ws: seq<real>, lo: real, hi: real)
    requires |xs| == |ws| && NoZeroPart(ws)
    ensures !Round(xs, ws, lo, hi).ZeroWeights?
  {
    if Round(xs, ws, lo, hi).ZeroWeights? {
      OpenPartIs(xs, ws, lo, hi);
    }
  }

  ghost predicate CanRaise(ws: seq<real>)
  {
    exists xs: seq<real>, lo, hi, k: nat :: |xs| == |ws| && lo <= hi && Rounds(xs, ws, lo, hi, k).ZeroWeights?
  }

  /** For any weights, some shares and limits make the division raise if and only if a proper part of the feeds weighs nothing. */
  lemma CanRaiseIff(ws: seq<real>)
    ensures CanRaise(ws) <==> !NoZeroPart(ws)
  {
    hide Round;
    if NoZeroPart(ws) {
      forall xs: seq<real>, lo, hi, k: nat | |xs| == |ws| ensures !Rounds(xs, ws, lo, hi, k).ZeroWeights? {
        NoZeroPartNoRaise(xs, ws, lo, hi, k);
      }
    } else {
      var part: seq<bool> :| |part| == |ws| && Proper(part) && Weight(ws, part) == 0.0;
      SplitRound(ws, part, 0.0, 0.0, 0.0);
      var xs := Split(part, 0.0, 0.0);
      FirstRound(xs, ws, 0.0, 0.0);
      assert Rounds(xs, ws, 0.0, 0.0, 1).ZeroWeights?;
    }
  }
}
