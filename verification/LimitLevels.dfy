/** Which runs keep the feeds in the order of their weights, and what they then hand out. */
module LimitLevels {
  import opened LimitLoop
  import opened LimitTheorems
  import opened LimitFairness
  import opened LimitExits

  function Min(x: real, y: real): real
  {
    if x <= y then x else y
  }

  function Max(x: real, y: real): real
  {
    if x >= y then x else y
  }

  /** What a feed of weight w holds when everything is filled up to level t. */
  function Filled(t: real, w: real): real
  {
    t * w
  }

  // ----- one level for all feeds -----

  /** Every clamped share is its weight times t, as far as hi allows, and nothing is below lo. */
  ghost predicate Level(xs: seq<real>, ws: seq<real>, lo: real, hi: real, t: real)
  {
    && |xs| == |ws|
    && forall i :: 0 <= i < |xs| ==> lo <= xs[i] && Clamp(xs[i], lo, hi) == Min(hi, Filled(t, ws[i]))
  }

  lemma RawLevel(total: real, ws: seq<real>, lo: real, hi: real)
    requires forall i :: 0 <= i < |ws| ==> lo <= RawShares(total, ws)[i]
    requires lo <= hi
    ensures Level(RawShares(total, ws), ws, lo, hi, total)
  {
  }

  lemma LevelRises(xs: seq<real>, ws: seq<real>, lo: real, hi: real, t: real) returns (t': real)
    requires NonNegative(ws) && lo <= hi && Level(xs, ws, lo, hi, t)
    ensures t' >= t && Level(Round(xs, ws, lo, hi).values, ws, lo, hi, t')
  {
    var o := Round(xs, ws, lo, hi);
    if o.Looping? {
      hide Round, Level, NonNegative;
      t' := LevelRisesInRound(xs, ws, lo, hi, t);
    } else {
      t' := t;
      ClampedLevel(xs, ws, lo, hi, t);
      assert o.values == Clamped(xs, lo, hi);
    }
  }

  lemma ClampedLevel(xs: seq<real>, ws: seq<real>, lo: real, hi: real, t: real)
    requires lo <= hi && Level(xs, ws, lo, hi, t)
    ensures Level(Clamped(xs, lo, hi), ws, lo, hi, t)
  {
  }

  lemma LevelRisesInRound(xs: seq<real>, ws: seq<real>, lo: real, hi: real, t: real) returns (t': real)
    requires NonNegative(ws) && lo <= hi && Level(xs, ws, lo, hi, t) && Round(xs, ws, lo, hi).Looping?
    ensures t' >= t && Level(Round(xs, ws, lo, hi).values, ws, lo, hi, t')
  {
    hide Round, Adjustment, OpenTotal;
    var ys := Round(xs, ws, lo, hi).values;
    var a, m := Adjustment(xs, lo, hi), OpenTotal(xs, ws, lo, hi);
    NoneBelow(xs, lo, hi);
    GoesOnAdjusts(xs, ws, lo, hi);
    OpenTotalSign(xs, ws, lo, hi);
    NonEmptyRound(xs, ws, lo, hi);
    QuotientMonotone(0.0, a, m);
    t' := t + a / m;
    forall i | 0 <= i < |xs|
      ensures lo <= ys[i] && Clamp(ys[i], lo, hi) == Min(hi, Filled(t', ws[i]))
    {
      assert Locked(xs[i], a, lo, hi) <==> xs[i] > hi;
      RoundValue(xs, ws, lo, hi, i, m);
      hide *;
      LevelOfOne(xs[i], ws[i], lo, hi, t, a, m, ys[i]);
    }
  }

  lemma LevelOfOne(x: real, w: real, lo: real, hi: real, t: real, a: real, m: real, y: real)
    requires lo <= hi && lo <= x && Clamp(x, lo, hi) == Min(hi, Filled(t, w)) && w >= 0.0 && a > 0.0 && m > 0.0
    requires y == Clamp(x, lo, hi) + if x > hi then 0.0 else ShareOf(a, w, m)
    ensures lo <= y && Clamp(y, lo, hi) == Min(hi, Filled(t + a / m, w))
  {
    ShareSign(a, w, m);
    ShareRaises(a, w, m, t);
  }

  lemma ShareRaises(a: real, w: real, m: real, t: real)
    requires m != 0.0
    ensures Filled(t + a / m, w) == Filled(t, w) + ShareOf(a, w, m)
  {
    assert a * (w / m) == w * (a / m);
  }

  /**
   When no raw share is below lo the loop is water filling: in every round there is one level t,
   at least the total, such that every clamped share is the smaller of hi and t times the weight.
   */
  lemma {:induction false} CommonLevel(total: real, ws: seq<real>, lo: real, hi: real, k: nat) returns (t: real)
    requires NonNegative(ws) && lo <= hi
    requires forall i :: 0 <= i < |ws| ==> lo <= RawShares(total, ws)[i]
    ensures t >= total && Level(Rounds(RawShares(total, ws), ws, lo, hi, k).values, ws, lo, hi, t)
  {
    var xs := RawShares(total, ws);
    if k == 0 {
      RawLevel(total, ws, lo, hi);
      t := total;
    } else {
      t := CommonLevel(total, ws, lo, hi, k - 1);
      var o := Rounds(xs, ws, lo, hi, k - 1);
      hide RawShares, Round, Level, NonNegative;
      if o.Looping? {
        t := LevelRises(o.values, ws, lo, hi, t);
      }
    }
  }

  /** When no raw share is above hi every clamped share is the larger of lo and t times the weight, with t at most the total. */
  lemma CommonFloor(total: real, ws: seq<real>, lo: real, hi: real, k: nat) returns (t: real)
    requires NonNegative(ws) && lo <= hi
    requires forall i :: 0 <= i < |ws| ==> RawShares(total, ws)[i] <= hi
    ensures t <= total
    ensures var vs := Rounds(RawShares(total, ws), ws, lo, hi, k).values;
      forall i :: 0 <= i < |ws| ==> vs[i] <= hi && Clamp(vs[i], lo, hi) == Max(lo, Filled(t, ws[i]))
  {
    var xs := RawShares(total, ws);
    var ns := RawShares(-total, ws);
    assert ns == Negated(xs);
    forall i | 0 <= i < |ws| ensures -hi <= ns[i] {
      assert ns[i] == -xs[i];
    }
    var u := CommonLevel(-total, ws, -hi, -lo, k);
    t := -u;
    hide RawShares, Rounds, NonNegative;
    MirrorRun(xs, ws, lo, hi, k);
    var vs, us := Rounds(xs, ws, lo, hi, k).values, Rounds(ns, ws, -hi, -lo, k).values;
    forall i | 0 <= i < |ws| ensures vs[i] <= hi && Clamp(vs[i], lo, hi) == Max(lo, Filled(t, ws[i])) {
      assert us[i] == -vs[i];
      FilledTurned(u, ws[i]);
    }
  }

  lemma FilledTurned(t: real, w: real)
    ensures Filled(-t, w) == -Filled(t, w)
  {
  }

  // ----- order by weight -----

  /**
   Where no raw share is above hi, a deficit does not reorder either: no feed is, after clamping,
   below a lighter one in any round, nor when the loop has exited.
   */
  lemma HeavierNotLessInDeficit(total: real, ws: seq<real>, lo: real, hi: real, k: nat, i: nat, j: nat)
    requires NonNegative(ws) && lo <= hi && total >= 0.0
    requires i < |ws| && j < |ws| && ws[i] >= ws[j]
    requires forall n :: 0 <= n < |ws| ==> RawShares(total, ws)[n] <= hi
    ensures var o := Rounds(RawShares(total, ws), ws, lo, hi, k);
      && Clamp(o.values[i], lo, hi) >= Clamp(o.values[j], lo, hi)
      && (!o.Looping? ==> o.values[i] >= o.values[j])
  {
    var xs := RawShares(total, ws);
    var o := Rounds(xs, ws, lo, hi, k);
    if forall n :: 0 <= n < |ws| ==> lo <= xs[n] {
      OrderedByLevel(total, ws, lo, hi, k, i, j);
    } else {
      OrderedByFloor(total, ws, lo, hi, k, i, j);
    }
    if !o.Looping? {
      hide *;
      ExitedIsClamped(xs, ws, lo, hi, k, i);
      ExitedIsClamped(xs, ws, lo, hi, k, j);
    }
  }

  lemma OrderedByLevel(total: real, ws: seq<real>, lo: real, hi: real, k: nat, i: nat, j: nat)
    requires NonNegative(ws) && lo <= hi && total >= 0.0
    requires i < |ws| && j < |ws| && ws[i] >= ws[j]
    requires forall n :: 0 <= n < |ws| ==> lo <= RawShares(total, ws)[n]
    ensures var vs := Rounds(RawShares(total, ws), ws, lo, hi, k).values; Clamp(vs[i], lo, hi) >= Clamp(vs[j], lo, hi)
  {
    hide RawShares, Rounds, NonNegative, Filled;
    var t := CommonLevel(total, ws, lo, hi, k);
    OrderedTops(t, ws[i], ws[j]);
  }

  lemma OrderedTops(t: real, w: real, v: real)
    requires t >= 0.0 && w >= v
    ensures Filled(t, w) >= Filled(t, v)
  {
  }

  lemma OrderedByFloor(total: real, ws: seq<real>, lo: real, hi: real, k: nat, i: nat, j: nat)
    requires NonNegative(ws) && lo <= hi && total >= 0.0
    requires i < |ws| && j < |ws| && ws[i] >= ws[j]
    requires forall n :: 0 <= n < |ws| ==> RawShares(total, ws)[n] <= hi
    requires exists n :: 0 <= n < |ws| && RawShares(total, ws)[n] < lo
    ensures var vs := Rounds(RawShares(total, ws), ws, lo, hi, k).values; Clamp(vs[i], lo, hi) >= Clamp(vs[j], lo, hi)
  {
    LimitIsPositive(total, ws, lo);
    assert ws[j] >= 0.0;
    hide *;
    var t := CommonFloor(total, ws, lo, hi, k);
    OrderedFloors(lo, t, ws[i], ws[j]);
  }

  lemma LimitIsPositive(total: real, ws: seq<real>, lo: real)
    requires NonNegative(ws) && total >= 0.0
    requires exists n :: 0 <= n < |ws| && RawShares(total, ws)[n] < lo
    ensures lo > 0.0
  {
    var n :| 0 <= n < |ws| && RawShares(total, ws)[n] < lo;
    RawNotNegative(total, ws);
  }

  lemma OrderedFloors(lo: real, t: real, w: real, v: real)
    requires lo > 0.0 && w >= v >= 0.0
    ensures Max(lo, Filled(t, w)) >= Max(lo, Filled(t, v))
  {
    if t >= 0.0 {
      OrderedTops(t, w, v);
    } else {
      assert Filled(t, w) <= 0.0;
      assert Filled(t, v) <= 0.0;
    }
  }

  // ----- exactly when two feeds change places -----

  /** Of a deficit split over a total weight, what a weight difference pays more outweighs the lead. */
  predicate LosesLead(lead: real, deficit: real, difference: real, weight: real)
  {
    lead * weight < deficit * difference
  }

  /** The lighter feed is open, and what the heavier one has more is less than what it pays more. */
  ghost predicate ChangePlaces(xs: seq<real>, ws: seq<real>, lo: real, hi: real, i: nat, j: nat)
    requires |xs| == |ws| && i < |xs| && j < |xs|
  {
    var a := Adjustment(xs, lo, hi);
    && a < 0.0 && !Locked(xs[j], a, lo, hi)
    && LosesLead(Clamp(xs[i], lo, hi) - Clamp(xs[j], lo, hi), -a, ws[i] - ws[j], OpenTotal(xs, ws, lo, hi))
  }

  /** Feed i ends below feed j: they change places at once or, where a second redistribution is needed, through it. */
  ghost predicate EndsBelow(xs: seq<real>, ws: seq<real>, lo: real, hi: real, i: nat, j: nat)
    requires |xs| == |ws| && i < |xs| && j < |xs|
    requires Settles(xs, ws, lo, hi) || SettlesLater(xs, ws, lo, hi)
  {
    if Settles(xs, ws, lo, hi) then ChangePlaces(xs, ws, lo, hi, i, j)
    else ShareAfter(Lifted(xs, ws, lo, hi), ws, lo, hi, i) < ShareAfter(Lifted(xs, ws, lo, hi), ws, lo, hi, j)
  }

  /**
   The exact condition, on the raw shares, for the heavier of two feeds to end with less, for
   weights and a total that are not negative and all inputs on which the loop exits. With positive
   weights it is that the total was in deficit, the lighter feed paid, and the lead of the heavier
   one after clamping was smaller than the difference of their payments.
   */
  lemma ReordersIff(total: real, ws: seq<real>, lo: real, hi: real, i: nat, j: nat)
    requires NonNegative(ws) && lo <= hi && total >= 0.0
    requires i < |ws| && j < |ws| && ws[i] > ws[j]
    requires Settles(RawShares(total, ws), ws, lo, hi) || SettlesLater(RawShares(total, ws), ws, lo, hi)
    ensures var xs, e := RawShares(total, ws), LoopExit(RawShares(total, ws), ws, lo, hi);
      e.Some? && (e.value.values[i] < e.value.values[j] <==> EndsBelow(xs, ws, lo, hi, i, j))
  {
    var xs := RawShares(total, ws);
    RawOrder(total, ws, i, j);
    hide RawShares, Settles, SettlesLater, NonNegative, ChangePlaces, ShareAfter, Lifted, LoopExit;
    if Settles(xs, ws, lo, hi) {
      SettledReordersIff(xs, ws, lo, hi, i, j);
    } else {
      ExitShare(xs, ws, lo, hi, i);
      ExitShare(xs, ws, lo, hi, j);
    }
  }

  lemma SettledReordersIff(xs: seq<real>, ws: seq<real>, lo: real, hi: real, i: nat, j: nat)
    requires |xs| == |ws| && NonNegative(ws) && lo <= hi && Settles(xs, ws, lo, hi)
    requires i < |ws| && j < |ws| && ws[i] > ws[j] && xs[i] >= xs[j]
    ensures var e := LoopExit(xs, ws, lo, hi);
      e.Some? && (e.value.values[i] < e.value.values[j] <==> ChangePlaces(xs, ws, lo, hi, i, j))
  {
    hide *;
    if Adjustment(xs, lo, hi) < 0.0 && !Locked(xs[j], Adjustment(xs, lo, hi), lo, hi) {
      OpenFeedsReorderIff(xs, ws, lo, hi, i, j);
    } else {
      OrderStays(xs, ws, lo, hi, i, j);
      NoPlacesChanged(xs, ws, lo, hi, i, j);
    }
  }

  lemma OrderStays(xs: seq<real>, ws: seq<real>, lo: real, hi: real, i: nat, j: nat)
    requires |xs| == |ws| && NonNegative(ws) && lo <= hi && Settles(xs, ws, lo, hi)
    requires i < |ws| && j < |ws| && ws[i] > ws[j] && xs[i] >= xs[j]
    requires var a := Adjustment(xs, lo, hi); a >= 0.0 || Locked(xs[j], a, lo, hi)
    ensures var e := LoopExit(xs, ws, lo, hi); e.Some? && e.value.values[i] >= e.value.values[j]
  {
    hide Settles, LoopExit, Adjustment, OpenTotal, ShareOf, NonNegative;
    var a, m := Adjustment(xs, lo, hi), OpenTotal(xs, ws, lo, hi);
    OpenTotalSign(xs, ws, lo, hi);
    SettledExit(xs, ws, lo, hi, i);
    SettledExit(xs, ws, lo, hi, j);
    if a > 0.0 && m > 0.0 {
      ShareOrder(a, ws[i], ws[j], m);
    }
  }

  lemma OpenFeedsReorderIff(xs: seq<real>, ws: seq<real>, lo: real, hi: real, i: nat, j: nat)
    requires |xs| == |ws| && NonNegative(ws) && lo <= hi && Settles(xs, ws, lo, hi)
    requires i < |ws| && j < |ws| && ws[i] > ws[j] && xs[i] >= xs[j]
    requires var a := Adjustment(xs, lo, hi); a < 0.0 && !Locked(xs[j], a, lo, hi)
    ensures var e := LoopExit(xs, ws, lo, hi);
      e.Some? && (e.value.values[i] < e.value.values[j] <==> ChangePlaces(xs, ws, lo, hi, i, j))
  {
    var a, m := Adjustment(xs, lo, hi), OpenTotal(xs, ws, lo, hi);
    assert !Locked(xs[i], a, lo, hi);
    assert ws[i] > 0.0;
    hide *;
    OpenTotalSign(xs, ws, lo, hi);
    SettledExit(xs, ws, lo, hi, i);
    SettledExit(xs, ws, lo, hi, j);
    var vs := LoopExit(xs, ws, lo, hi).value.values;
    Lead(a, m, ws[i], ws[j], Clamp(xs[i], lo, hi), Clamp(xs[j], lo, hi), vs[i], vs[j]);
    PlacesChanged(xs, ws, lo, hi, i, j, a, m);
  }

  lemma NoPlacesChanged(xs: seq<real>, ws: seq<real>, lo: real, hi: real, i: nat, j: nat)
    requires |xs| == |ws| && i < |xs| && j < |xs|
    requires Adjustment(xs, lo, hi) >= 0.0 || Locked(xs[j], Adjustment(xs, lo, hi), lo, hi)
    ensures !ChangePlaces(xs, ws, lo, hi, i, j)
  {
  }

  lemma PlacesChanged(xs: seq<real>, ws: seq<real>, lo: real, hi: real, i: nat, j: nat, a: real, m: real)
    requires |xs| == |ws| && i < |xs| && j < |xs| && a == Adjustment(xs, lo, hi) && m == OpenTotal(xs, ws, lo, hi)
    requires a < 0.0 && !Locked(xs[j], a, lo, hi)
    ensures ChangePlaces(xs, ws, lo, hi, i, j) <==> LosesLead(Clamp(xs[i], lo, hi) - Clamp(xs[j], lo, hi), -a, ws[i] - ws[j], m)
  {
  }

  lemma Lead(a: real, m: real, w: real, v: real, c: real, d: real, y: real, z: real)
    requires m > 0.0 && y == c + ShareOf(a, w, m) && z == d + ShareOf(a, v, m)
    ensures y < z <==> LosesLead(c - d, -a, w - v, m)
  {
    var p, q := a * (w / m), a * (v / m);
    assert p * m == a * w;
    assert q * m == a * v;
    assert (y - z) * m == (c - d) * m + a * (w - v);
    assert y < z <==> (y - z) * m < 0.0;
  }
}
