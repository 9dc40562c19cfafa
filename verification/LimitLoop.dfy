/**
 The clamp-and-redistribute loop that makes the shares of one action respect its limits,
 as a function of one round and of k rounds. Shares and weights are indexed by the feeds
 that arrived, in arrival order.
 */
module LimitLoop {
  import opened Sums

  /** What one pass of the loop body leaves behind. Only Looping goes round again. */
  datatype Outcome =
    | Balanced(values: seq<real>)      // nothing left to redistribute
    | Saturated(values: seq<real>)     // no feed left to redistribute to
    | ZeroWeights(values: seq<real>)   // the feeds left weigh 0.0: the division raises
    | Looping(values: seq<real>)

  function Clamp(x: real, lo: real, hi: real): real
  {
    if x > hi then hi else if x < lo then lo else x
  }

  function Clamped(xs: seq<real>, lo: real, hi: real): (cs: seq<real>)
    ensures |cs| == |xs|
  {
    seq(|xs|, i requires 0 <= i < |xs| => Clamp(xs[i], lo, hi))
  }

  /** Everything cut off above the upper limit minus everything added below the lower one. */
  function Adjustment(xs: seq<real>, lo: real, hi: real): real
  {
    Sum(xs) - Sum(Clamped(xs, lo, hi))
  }

  /** x receives nothing more: it was clamped on the side the net adjustment comes from. */
  predicate Locked(x: real, adjustment: real, lo: real, hi: real)
  {
    if adjustment < 0.0 then x <= hi && x < lo else x > hi
  }

  predicate AllLocked(xs: seq<real>, adjustment: real, lo: real, hi: real)
  {
    forall i :: 0 <= i < |xs| ==> Locked(xs[i], adjustment, lo, hi)
  }

  /** The weights of the remaining feeds, 0.0 for the locked ones. */
  function OpenWeights(xs: seq<real>, ws: seq<real>, adjustment: real, lo: real, hi: real): (ms: seq<real>)
    requires |xs| == |ws|
    ensures |ms| == |ws|
  {
    seq(|xs|, i requires 0 <= i < |xs| => if Locked(xs[i], adjustment, lo, hi) then 0.0 else ws[i])
  }

  /** A feed's part of the adjustment: its weight over the weight of all remaining feeds. */
  function ShareOf(adjustment: real, weight: real, total: real): real
    requires total != 0.0
  {
    adjustment * (weight / total)
  }

  /** The adjustment split in proportion to weights ms whose sum is total. */
  function Shares(ms: seq<real>, total: real, adjustment: real): (ss: seq<real>)
    requires total != 0.0
    ensures |ss| == |ms|
  {
    if ms == [] then []
    else
      var n := |ms| - 1;
      Shares(ms[..n], total, adjustment) + [ShareOf(adjustment, ms[n], total)]
  }

  function Added(cs: seq<real>, ss: seq<real>): (ys: seq<real>)
    requires |cs| == |ss|
    ensures |ys| == |cs|
  {
    seq(|cs|, i requires 0 <= i < |cs| => cs[i] + ss[i])
  }

  function Round(xs: seq<real>, ws: seq<real>, lo: real, hi: real): (o: Outcome)
    requires |xs| == |ws|
    ensures |o.values| == |xs|
  {
    var cs := Clamped(xs, lo, hi);
    var adjustment := Adjustment(xs, lo, hi);
    var ms := OpenWeights(xs, ws, adjustment, lo, hi);
    if adjustment == 0.0 then Balanced(cs)
    else if AllLocked(xs, adjustment, lo, hi) then Saturated(cs)
    else if Sum(ms) == 0.0 then ZeroWeights(cs)
    else Looping(Added(cs, Shares(ms, Sum(ms), adjustment)))
  }

  /** At most k passes from raw shares xs; Looping means the loop is still going after k. */
  function Rounds(xs: seq<real>, ws: seq<real>, lo: real, hi: real, k: nat): (o: Outcome)
    requires |xs| == |ws|
    ensures |o.values| == |xs|
  {
    if k == 0 then Looping(xs)
    else
      var o := Rounds(xs, ws, lo, hi, k - 1);
      if o.Looping? then Round(o.values, ws, lo, hi) else o
  }

  ghost predicate NonNegative(ws: seq<real>)
  {
    forall i :: 0 <= i < |ws| ==> ws[i] >= 0.0
  }

  ghost predicate Positive(ws: seq<real>, least: real)
  {
    0.0 < least && forall i :: 0 <= i < |ws| ==> least <= ws[i]
  }

  /** The total can be split so that every one of the n shares is within the limits. */
  ghost predicate Feasible(total: real, n: nat, lo: real, hi: real)
  {
    Times(n, lo) <= total <= Times(n, hi)
  }

  ghost predicate Within(xs: seq<real>, lo: real, hi: real)
  {
    forall i :: 0 <= i < |xs| ==> lo <= xs[i] <= hi
  }

  // ----- one round -----

  lemma OpenWeightsPositive(xs: seq<real>, ws: seq<real>, adjustment: real, lo: real, hi: real, least: real, j: nat)
    requires |xs| == |ws| && Positive(ws, least)
    requires j < |xs| && !Locked(xs[j], adjustment, lo, hi)
    ensures least <= ws[j] <= Sum(OpenWeights(xs, ws, adjustment, lo, hi)) <= Sum(ws)
  {
    var ms := OpenWeights(xs, ws, adjustment, lo, hi);
    var zeros := seq(|xs|, i => 0.0);
    SumZeros(zeros);
    SumGap(zeros, ms, j);
    SumMonotone(ms, ws);
  }

  lemma NothingShared(a: real, m: real)
    requires m != 0.0
    ensures ShareOf(a, 0.0, m) == 0.0
  {
  }

  lemma {:induction false} ShareAt(ms: seq<real>, total: real, a: real, i: nat)
    requires total != 0.0 && i < |ms|
    ensures Shares(ms, total, a)[i] == ShareOf(a, ms[i], total)
  {
    if i < |ms| - 1 {
      ShareAt(ms[..|ms| - 1], total, a, i);
    }
  }

  lemma {:induction false} SumOfShares(ms: seq<real>, total: real, a: real)
    requires total != 0.0
    ensures Sum(Shares(ms, total, a)) == a * (Sum(ms) / total)
  {
    if ms != [] {
      var n := |ms| - 1;
      SumOfShares(ms[..n], total, a);
      SumSnoc(Shares(ms[..n], total, a), a * (ms[n] / total));
      ScaledPlus(a, Sum(ms[..n]), ms[n], total);
    }
  }

  lemma ScaledPlus(a: real, x: real, y: real, total: real)
    requires total != 0.0
    ensures a * ((x + y) / total) == a * (x / total) + a * (y / total)
  {
    assert (x + y) / total == x / total + y / total;
  }

  lemma SharesTotal(ms: seq<real>, a: real)
    requires Sum(ms) != 0.0
    ensures Sum(Shares(ms, Sum(ms), a)) == a
  {
    SumOfShares(ms, Sum(ms), a);
  }

  lemma {:induction false} AddedTotal(cs: seq<real>, ss: seq<real>, ys: seq<real>)
    requires |cs| == |ss| == |ys|
    requires forall i :: 0 <= i < |cs| ==> ys[i] == cs[i] + ss[i]
    ensures Sum(ys) == Sum(cs) + Sum(ss)
  {
    if cs != [] {
      var n := |cs| - 1;
      AddedTotal(cs[..n], ss[..n], ys[..n]);
    }
  }

  /** Redistribution loses nothing: a round that goes on has the total it started with. */
  lemma RoundConserves(xs: seq<real>, ws: seq<real>, lo: real, hi: real)
    requires |xs| == |ws|
    ensures var o := Round(xs, ws, lo, hi);
      Sum(o.values) == if o.Looping? then Sum(xs) else Sum(xs) - Adjustment(xs, lo, hi)
  {
    if Round(xs, ws, lo, hi).Looping? {
      var adjustment := Adjustment(xs, lo, hi);
      var cs, ms := Clamped(xs, lo, hi), OpenWeights(xs, ws, adjustment, lo, hi);
      SharesTotal(ms, adjustment);
      AddedTotal(cs, Shares(ms, Sum(ms), adjustment), Added(cs, Shares(ms, Sum(ms), adjustment)));
    }
  }

  /** With positive weights the division never raises. */
  lemma PositiveNeverRaises(xs: seq<real>, ws: seq<real>, lo: real, hi: real, least: real)
    requires |xs| == |ws| && Positive(ws, least)
    ensures !Round(xs, ws, lo, hi).ZeroWeights?
  {
    var adjustment := Adjustment(xs, lo, hi);
    if !AllLocked(xs, adjustment, lo, hi) {
      var j :| 0 <= j < |xs| && !Locked(xs[j], adjustment, lo, hi);
      OpenWeightsPositive(xs, ws, adjustment, lo, hi, least, j);
    }
  }

  /** One round of the loop on negated shares and mirrored limits is the negated round. */
  function Negated(xs: seq<real>): (ys: seq<real>)
    ensures |ys| == |xs|
  {
    seq(|xs|, i requires 0 <= i < |xs| => -xs[i])
  }

  lemma SumNegated(xs: seq<real>)
    ensures Sum(Negated(xs)) == -Sum(xs)
  {
    var zeros := seq(|xs|, i => 0.0);
    SumZeros(zeros);
    SumLinear(zeros, xs, -1.0, Negated(xs));
  }

  lemma MirrorAdjustment(xs: seq<real>, lo: real, hi: real)
    requires lo <= hi
    ensures Clamped(Negated(xs), -hi, -lo) == Negated(Clamped(xs, lo, hi))
    ensures Adjustment(Negated(xs), -hi, -lo) == -Adjustment(xs, lo, hi)
  {
    assert Clamped(Negated(xs), -hi, -lo) == Negated(Clamped(xs, lo, hi));
    SumNegated(xs);
    SumNegated(Clamped(xs, lo, hi));
  }

  lemma MirrorRound(xs: seq<real>, ws: seq<real>, lo: real, hi: real)
    requires |xs| == |ws| && lo <= hi
    ensures var o, o' := Round(xs, ws, lo, hi), Round(Negated(xs), ws, -hi, -lo);
      && o'.values == Negated(o.values)
      && (o'.Looping? <==> o.Looping?) && (o'.Balanced? <==> o.Balanced?) && (o'.Saturated? <==> o.Saturated?)
  {
    MirrorAdjustment(xs, lo, hi);
    var adjustment := Adjustment(xs, lo, hi);
    if adjustment != 0.0 {
      assert forall i :: 0 <= i < |xs| ==>
        (Locked(xs[i], adjustment, lo, hi) <==> Locked(Negated(xs)[i], -adjustment, -hi, -lo));
      assert OpenWeights(Negated(xs), ws, -adjustment, -hi, -lo) == OpenWeights(xs, ws, adjustment, lo, hi);
      var o, o' := Round(xs, ws, lo, hi), Round(Negated(xs), ws, -hi, -lo);
      if o.Looping? {
        var ms := OpenWeights(xs, ws, adjustment, lo, hi);
        SharesNegated(ms, Sum(ms), adjustment);
      }
    }
  }

  lemma {:induction false} SharesNegated(ms: seq<real>, total: real, a: real)
    requires total != 0.0
    ensures Shares(ms, total, -a) == Negated(Shares(ms, total, a))
  {
    if ms != [] {
      SharesNegated(ms[..|ms| - 1], total, a);
      NegatedShare(a, ms[|ms| - 1] / total);
    }
  }

  lemma NegatedShare(a: real, r: real)
    ensures (-a) * r == -(a * r)
  {
  }

  // ----- a surplus round -----

  /**
   What a surplus round does, in linear terms: ss[i] is what feed i receives. Locked feeds
   receive nothing; every other feed receives at least the fraction least / Sum(ws).
   */
  ghost predicate SurplusStep(xs: seq<real>, ss: seq<real>, ys: seq<real>, lo: real, hi: real, fraction: real)
  {
    && |xs| == |ss| == |ys|
    && lo <= hi
    && Adjustment(xs, lo, hi) > 0.0
    && Sum(ss) == Adjustment(xs, lo, hi)
    && Sum(ys) == Sum(xs)
    && (forall i :: 0 <= i < |xs| ==> ys[i] == Clamp(xs[i], lo, hi) + ss[i])
    && (forall i :: 0 <= i < |xs| ==> ss[i] >= if xs[i] > hi then 0.0 else fraction)
    && (forall i :: 0 <= i < |xs| && xs[i] > hi ==> ss[i] == 0.0)
    && (exists i :: 0 <= i < |xs| && xs[i] <= hi)
  }

  lemma RoundIsSurplusStep(xs: seq<real>, ws: seq<real>, lo: real, hi: real, least: real, f: real) returns (ss: seq<real>)
    requires |xs| == |ws| && Positive(ws, least) && lo <= hi
    requires Adjustment(xs, lo, hi) > 0.0 && Round(xs, ws, lo, hi).Looping?
    requires Sum(ws) > 0.0 && f == Adjustment(xs, lo, hi) * (least / Sum(ws))
    ensures SurplusStep(xs, ss, Round(xs, ws, lo, hi).values, lo, hi, f)
  {
    hide SurplusStep, Adjustment, Shares, Sum;
    var a := Adjustment(xs, lo, hi);
    var ms := OpenWeights(xs, ws, a, lo, hi);
    var j :| 0 <= j < |xs| && !Locked(xs[j], a, lo, hi);
    OpenWeightsPositive(xs, ws, a, lo, hi, least, j);
    ss := Shares(ms, Sum(ms), a);
    forall i | 0 <= i < |xs|
      ensures if xs[i] > hi then ss[i] == 0.0 else ss[i] >= f
    {
      ShareAt(ms, Sum(ms), a, i);
      NothingShared(a, Sum(ms));
      if xs[i] <= hi {
        SmallestShare(a, least, ms[i], Sum(ms), Sum(ws));
      }
    }
    RoundIsSurplusStepFor(xs, ws, lo, hi, ms, ss, f);
  }

  lemma RoundIsSurplusStepFor(xs: seq<real>, ws: seq<real>, lo: real, hi: real, ms: seq<real>, ss: seq<real>, f: real)
    requires |xs| == |ws| && lo <= hi
    requires Adjustment(xs, lo, hi) > 0.0 && Round(xs, ws, lo, hi).Looping?
    requires ms == OpenWeights(xs, ws, Adjustment(xs, lo, hi), lo, hi) && Sum(ms) != 0.0
    requires ss == Shares(ms, Sum(ms), Adjustment(xs, lo, hi))
    requires forall i :: 0 <= i < |xs| ==> if xs[i] > hi then ss[i] == 0.0 else ss[i] >= f
    ensures SurplusStep(xs, ss, Round(xs, ws, lo, hi).values, lo, hi, f)
  {
    var a := Adjustment(xs, lo, hi);
    SharesTotal(ms, a);
    RoundConserves(xs, ws, lo, hi);
    assert Round(xs, ws, lo, hi).values == Added(Clamped(xs, lo, hi), ss);
  }

  lemma QuotientAntitone(x: real, d: real, d': real)
    requires 0.0 < x && 0.0 < d <= d'
    ensures 0.0 < x / d' <= x / d
  {
    var p, q := x / d', x / d;
    assert p * d' == x == q * d;
    if q < p {
      assert q * d <= q * d' < p * d';
    }
  }

  lemma QuotientMonotone(x: real, y: real, d: real)
    requires x <= y && 0.0 < d
    ensures x / d <= y / d
  {
  }

  lemma ProductMonotone(a: real, x: real, y: real)
    requires 0.0 < a && 0.0 < x <= y
    ensures a * y >= a * x > 0.0
  {
  }

  lemma SmallestShare(a: real, least: real, m: real, open: real, total: real)
    requires a > 0.0 && 0.0 < least <= m && 0.0 < open <= total
    ensures a * (m / open) >= a * (least / total) > 0.0
  {
    QuotientAntitone(least, open, total);
    QuotientMonotone(least, m, open);
    ProductMonotone(a, least / total, m / open);
  }

  /** After a surplus step no clamped value is lower, and nothing is below lo. */
  lemma StepGrows(xs: seq<real>, ss: seq<real>, ys: seq<real>, lo: real, hi: real, fraction: real)
    requires SurplusStep(xs, ss, ys, lo, hi, fraction) && fraction >= 0.0
    ensures forall i :: 0 <= i < |xs| ==> lo <= Clamp(xs[i], lo, hi) <= Clamp(ys[i], lo, hi) <= ys[i]
    ensures Adjustment(ys, lo, hi) >= 0.0
  {
    SumMonotone(Clamped(ys, lo, hi), ys);
  }

  /** Shares all at or above a limit, and one of them above, add up to more than n times it. */
  lemma BeyondLimit(ys: seq<real>, hi: real, j: nat)
    requires j < |ys| && ys[j] > hi
    requires forall i :: 0 <= i < |ys| ==> ys[i] >= hi
    ensures Sum(ys) > Times(|ys|, hi)
  {
    var tops := seq(|ys|, i => hi);
    SumConstant(tops, hi);
    SumGap(tops, ys, j);
  }

  /** Some feed that got a share stays within the upper limit unless the total is too large. */
  lemma SomeoneHasRoom(xs: seq<real>, ss: seq<real>, ys: seq<real>, lo: real, hi: real, fraction: real) returns (j: nat)
    requires SurplusStep(xs, ss, ys, lo, hi, fraction) && fraction >= 0.0
    requires Sum(xs) <= Times(|xs|, hi)
    ensures j < |xs| && xs[j] <= hi && ys[j] <= hi
  {
    if forall i :: 0 <= i < |xs| && xs[i] <= hi ==> ys[i] > hi {
      var i :| 0 <= i < |xs| && xs[i] <= hi;
      BeyondLimit(ys, hi, i);
      assert false;
    }
    j :| 0 <= j < |xs| && xs[j] <= hi && ys[j] <= hi;
  }

  /** What a surplus step leaves over the limit is at most the shares of the feeds without room. */
  lemma StepContracts(xs: seq<real>, ss: seq<real>, ys: seq<real>, lo: real, hi: real, fraction: real)
    requires SurplusStep(xs, ss, ys, lo, hi, fraction) && fraction >= 0.0
    requires Sum(xs) <= Times(|xs|, hi)
    ensures Adjustment(ys, lo, hi) <= Adjustment(xs, lo, hi) - fraction
  {
    var j := SomeoneHasRoom(xs, ss, ys, lo, hi, fraction);
    var cs, zs := Clamped(xs, lo, hi), Clamped(ys, lo, hi);
    SumGap(cs, zs, j);
    AddedTotal(cs, ss, ys);
  }

  // ----- what a round does to each feed -----

  function OpenTotal(xs: seq<real>, ws: seq<real>, lo: real, hi: real): real
    requires |xs| == |ws|
  {
    Sum(OpenWeights(xs, ws, Adjustment(xs, lo, hi), lo, hi))
  }

  /** Clamping plus, for feeds that are not locked, the part of the adjustment. */
  lemma RoundValue(xs: seq<real>, ws: seq<real>, lo: real, hi: real, i: nat, m: real)
    requires |xs| == |ws| && i < |xs| && m == OpenTotal(xs, ws, lo, hi) && Round(xs, ws, lo, hi).Looping?
    ensures m != 0.0
    ensures Round(xs, ws, lo, hi).values[i] == Clamp(xs[i], lo, hi)
      + if Locked(xs[i], Adjustment(xs, lo, hi), lo, hi) then 0.0 else ShareOf(Adjustment(xs, lo, hi), ws[i], m)
  {
    hide ShareOf;
    var a := Adjustment(xs, lo, hi);
    ShareAt(OpenWeights(xs, ws, a, lo, hi), m, a, i);
    NothingShared(a, m);
  }

  lemma SomeoneIsOver(xs: seq<real>, lo: real, hi: real)
    requires Adjustment(xs, lo, hi) > 0.0
    ensures exists i :: 0 <= i < |xs| && xs[i] > hi
  {
    if forall i :: 0 <= i < |xs| ==> xs[i] <= hi {
      SumMonotone(xs, Clamped(xs, lo, hi));
    }
  }

  /** With nothing below lo, the adjustment is positive exactly if something is above hi. */
  lemma NoneBelow(xs: seq<real>, lo: real, hi: real)
    requires lo <= hi && forall i :: 0 <= i < |xs| ==> lo <= xs[i]
    ensures Adjustment(xs, lo, hi) >= 0.0
    ensures Adjustment(xs, lo, hi) > 0.0 <==> exists i :: 0 <= i < |xs| && xs[i] > hi
  {
    var cs := Clamped(xs, lo, hi);
    SumMonotone(cs, xs);
    if i :| 0 <= i < |xs| && xs[i] > hi {
      SumGap(cs, xs, i);
    } else {
      assert cs == xs;
    }
  }

  /** In a surplus round that goes on whoever is above hi rests there, whatever the weights. */
  lemma OverRests(xs: seq<real>, ws: seq<real>, lo: real, hi: real)
    requires |xs| == |ws| && Adjustment(xs, lo, hi) > 0.0 && Round(xs, ws, lo, hi).Looping?
    ensures var ys := Round(xs, ws, lo, hi).values;
      forall i :: 0 <= i < |xs| && xs[i] > hi ==> ys[i] == hi
    ensures exists i :: 0 <= i < |xs| && xs[i] > hi
  {
    SomeoneIsOver(xs, lo, hi);
    var ys := Round(xs, ws, lo, hi).values;
    forall i | 0 <= i < |xs| && xs[i] > hi ensures ys[i] == hi {
      RoundValue(xs, ws, lo, hi, i, OpenTotal(xs, ws, lo, hi));
    }
  }

  // ----- the same with weights that are not negative -----

  lemma ShareSign(a: real, w: real, m: real)
    requires a > 0.0 && w >= 0.0 && m > 0.0
    ensures ShareOf(a, w, m) >= 0.0
    ensures ShareOf(a, w, m) > 0.0 <==> w > 0.0
  {
    var q := w / m;
    assert q >= 0.0;
    assert w > 0.0 ==> q > 0.0;
  }

  lemma OpenTotalSign(xs: seq<real>, ws: seq<real>, lo: real, hi: real)
    requires |xs| == |ws| && NonNegative(ws)
    ensures OpenTotal(xs, ws, lo, hi) >= 0.0
    ensures OpenTotal(xs, ws, lo, hi) > 0.0 <==>
      exists i :: 0 <= i < |xs| && ws[i] > 0.0 && !Locked(xs[i], Adjustment(xs, lo, hi), lo, hi)
  {
    var a := Adjustment(xs, lo, hi);
    var ms := OpenWeights(xs, ws, a, lo, hi);
    hide Adjustment;
    var zeros := seq(|xs|, i => 0.0);
    SumZeros(zeros);
    SumMonotone(zeros, ms);
    if i :| 0 <= i < |xs| && ws[i] > 0.0 && !Locked(xs[i], a, lo, hi) {
      assert ms[i] == ws[i];
      SumGap(zeros, ms, i);
    } else {
      assert forall i :: 0 <= i < |ms| ==> ms[i] == 0.0;
      SumZeros(ms);
    }
  }

  /** What a surplus round does to every feed. */
  lemma SurplusRoundValues(xs: seq<real>, ws: seq<real>, lo: real, hi: real)
    requires |xs| == |ws| && NonNegative(ws) && lo <= hi
    requires Adjustment(xs, lo, hi) > 0.0 && Round(xs, ws, lo, hi).Looping?
    ensures var ys := Round(xs, ws, lo, hi).values;
      forall i :: 0 <= i < |xs| ==>
        if xs[i] > hi then ys[i] == hi
        else if ws[i] == 0.0 then ys[i] == Clamp(xs[i], lo, hi) else ys[i] > Clamp(xs[i], lo, hi)
    ensures exists i :: 0 <= i < |xs| && xs[i] > hi
  {
    SomeoneIsOver(xs, lo, hi);
    var m := OpenTotal(xs, ws, lo, hi);
    OpenTotalSign(xs, ws, lo, hi);
    var ys := Round(xs, ws, lo, hi).values;
    forall i | 0 <= i < |xs|
      ensures if xs[i] > hi then ys[i] == hi
        else if ws[i] == 0.0 then ys[i] == Clamp(xs[i], lo, hi) else ys[i] > Clamp(xs[i], lo, hi)
    {
      RoundValue(xs, ws, lo, hi, i, m);
      ShareSign(Adjustment(xs, lo, hi), ws[i], m);
    }
  }


}
