/** Two feeds, for which the loop has a closed form, and inputs on which more feeds behave worse. */
module LimitCases {
  import opened Sums
  import opened LimitLoop
  import opened LimitFairness

  lemma SumOne(x: real)
    ensures Sum([x]) == x
  {
  }

  lemma SumTwo(x: real, y: real)
    ensures Sum([x, y]) == x + y
  {
    SumOne(x);
    assert [x, y][..1] == [x];
  }

  lemma SumThree(x: real, y: real, z: real)
    ensures Sum([x, y, z]) == x + y + z
  {
    SumTwo(x, y);
    assert [x, y, z][..2] == [x, y];
  }

  lemma SumFour(x: real, y: real, z: real, u: real)
    ensures Sum([x, y, z, u]) == x + y + z + u
  {
    SumThree(x, y, z);
    assert [x, y, z, u][..3] == [x, y, z];
  }

  // ----- two feeds -----

  /** What feed A ends with: its raw share, as far as the limits of both feeds allow. */
  function SplitOfTwo(x: real, total: real, lo: real, hi: real): real
  {
    var low := if lo >= total - hi then lo else total - hi;
    var high := if hi <= total - lo then hi else total - lo;
    Clamp(x, low, high)
  }

  /** For two feeds of positive weight and a total they can hold, two rounds give the closed form. */
  lemma TwoFeeds(x: real, y: real, ws: seq<real>, lo: real, hi: real, least: real)
    requires |ws| == 2 && Positive(ws, least) && lo <= hi
    requires lo + lo <= x + y <= hi + hi
    ensures var a := SplitOfTwo(x, x + y, lo, hi);
      Rounds([x, y], ws, lo, hi, 2) == Balanced([a, x + y - a])
  {
    var a := SplitOfTwo(x, x + y, lo, hi);
    var xs := [x, y];
    FirstRound(xs, ws, lo, hi);
    TwoFeedRound(x, y, ws, lo, hi, least);
    assert Rounds(xs, ws, lo, hi, 2) == if Round(xs, ws, lo, hi).Looping? then Round([a, x + y - a], ws, lo, hi) else Round(xs, ws, lo, hi);
    assert Clamped([a, x + y - a], lo, hi) == [a, x + y - a];
  }

  lemma TwoFeedRound(x: real, y: real, ws: seq<real>, lo: real, hi: real, least: real)
    requires |ws| == 2 && Positive(ws, least) && lo <= hi
    requires lo + lo <= x + y <= hi + hi
    ensures var a := SplitOfTwo(x, x + y, lo, hi);
      var o := Round([x, y], ws, lo, hi);
      (o.Balanced? || o.Looping?) && o.values == [a, x + y - a]
  {
    var xs := [x, y];
    var cx, cy := Clamp(x, lo, hi), Clamp(y, lo, hi);
    var adjustment := x + y - cx - cy;
    TwoFeedAdjustment(x, y, lo, hi);
    if adjustment != 0.0 {
      var ms := OpenWeights(xs, ws, adjustment, lo, hi);
      if Locked(x, adjustment, lo, hi) {
        assert !Locked(xs[1], adjustment, lo, hi);
        assert ms == [0.0, ws[1]];
        ShareOfOne(ms, 1, adjustment);
      } else {
        assert !Locked(xs[0], adjustment, lo, hi);
        assert ms == [ws[0], 0.0];
        ShareOfOne(ms, 0, adjustment);
      }
    }
  }

  lemma TwoFeedAdjustment(x: real, y: real, lo: real, hi: real)
    ensures Clamped([x, y], lo, hi) == [Clamp(x, lo, hi), Clamp(y, lo, hi)]
    ensures Adjustment([x, y], lo, hi) == x + y - Clamp(x, lo, hi) - Clamp(y, lo, hi)
  {
    assert Clamped([x, y], lo, hi) == [Clamp(x, lo, hi), Clamp(y, lo, hi)];
    SumTwo(x, y);
    SumTwo(Clamp(x, lo, hi), Clamp(y, lo, hi));
  }

  /** The only open feed of two receives the whole adjustment. */
  lemma ShareOfOne(ms: seq<real>, open: nat, a: real)
    requires |ms| == 2 && open < 2 && ms[open] > 0.0 && ms[1 - open] == 0.0
    ensures Sum(ms) == ms[open]
    ensures Shares(ms, Sum(ms), a) == if open == 0 then [a, 0.0] else [0.0, a]
  {
    assert ms == [ms[0], ms[1]];
    SumTwo(ms[0], ms[1]);
    ShareAt(ms, ms[open], a, 0);
    ShareAt(ms, ms[open], a, 1);
    Whole(ms[open], a);
  }

  lemma Whole(m: real, a: real)
    requires m != 0.0
    ensures a * (m / m) == a && a * (0.0 / m) == 0.0
  {
  }

  /** A weight of zero, which users may give, makes the division raise as soon as the other feed is above its limit. */
  lemma ZeroWeightRaises(total: real, lo: real, hi: real)
    requires lo <= 0.0 <= hi < total
    ensures Round(RawShares(total, [1.0, 0.0]), [1.0, 0.0], lo, hi).ZeroWeights?
  {
    var ws := [1.0, 0.0];
    var xs := RawShares(total, ws);
    assert xs == [total, 0.0];
    TwoFeedAdjustment(total, 0.0, lo, hi);
    var ms := OpenWeights(xs, ws, Adjustment(xs, lo, hi), lo, hi);
    assert ms == [0.0, 0.0];
    SumTwo(0.0, 0.0);
    assert !Locked(xs[1], Adjustment(xs, lo, hi), lo, hi);
  }

  // ----- three feeds: the exact loop need not stop -----

  const WEIGHTS := [0.6, 0.35, 0.05]

  /** One of the first two feeds is above the limit 6, the other at it, and the third has the rest of 16. */
  ghost predicate PingPong(xs: seq<real>)
  {
    && |xs| == 3
    && (xs[0] == 6.0 < xs[1] || xs[1] == 6.0 < xs[0])
    && 0.0 <= xs[2] == 16.0 - xs[0] - xs[1]
  }

  /**
   Three feeds with weights 0.6, 0.35, 0.05, limits [0, 6] and a total of 16 that fits: in exact
   arithmetic the first two pass a shrinking excess back and forth and no round is the last.
   */
  lemma {:induction false} NeverExits(k: nat)
    ensures Rounds(RawShares(16.0, WEIGHTS), WEIGHTS, 0.0, 6.0, k).Looping?
    ensures Feasible(Sum(RawShares(16.0, WEIGHTS)), 3, 0.0, 6.0)
    ensures k > 0 ==> PingPong(Rounds(RawShares(16.0, WEIGHTS), WEIGHTS, 0.0, 6.0, k).values)
  {
    var xs := RawShares(16.0, WEIGHTS);
    assert xs == [9.6, 5.6, 0.8];
    SumThree(9.6, 5.6, 0.8);
    assert Times(1, 6.0) == 6.0 && Times(1, 0.0) == 0.0;
    assert Times(2, 6.0) == 12.0 && Times(2, 0.0) == 0.0;
    if k == 1 {
      FirstRound(xs, WEIGHTS, 0.0, 6.0);
      LoneExcess(xs, 0, 3.6);
    } else if k > 1 {
      NeverExits(k - 1);
      PingPongRound(Rounds(xs, WEIGHTS, 0.0, 6.0, k - 1).values);
    }
  }

  lemma PingPongRound(xs: seq<real>)
    requires PingPong(xs)
    ensures var o := Round(xs, WEIGHTS, 0.0, 6.0); o.Looping? && PingPong(o.values)
  {
    if xs[0] > 6.0 {
      LoneExcess(xs, 0, xs[0] - 6.0);
    } else {
      LoneExcess(xs, 1, xs[1] - 6.0);
    }
  }

  /** One of the first two feeds is e above 6 and no other feed is out of [0, 6]. */
  lemma LoneExcess(xs: seq<real>, over: nat, e: real)
    requires |xs| == 3 && over < 2 && e > 0.0 && xs[over] == 6.0 + e
    requires 0.0 <= xs[1 - over] <= 6.0 && 0.0 <= xs[2] <= 6.0
    ensures var o := Round(xs, WEIGHTS, 0.0, 6.0);
      && o.Looping?
      && o.values == if over == 0 then [6.0, xs[1] + e * (0.35 / 0.4), xs[2] + e * (0.05 / 0.4)]
                     else [xs[0] + e * (0.6 / 0.65), 6.0, xs[2] + e * (0.05 / 0.65)]
  {
    assert xs == [xs[0], xs[1], xs[2]];
    var cs := Clamped(xs, 0.0, 6.0);
    assert cs == [if over == 0 then 6.0 else xs[0], if over == 1 then 6.0 else xs[1], xs[2]];
    SumThree(xs[0], xs[1], xs[2]);
    SumThree(cs[0], cs[1], cs[2]);
    var ms := OpenWeights(xs, WEIGHTS, e, 0.0, 6.0);
    assert ms == if over == 0 then [0.0, 0.35, 0.05] else [0.6, 0.0, 0.05];
    assert !Locked(xs[2], e, 0.0, 6.0);
    SumThree(ms[0], ms[1], ms[2]);
    ShareAt(ms, Sum(ms), e, 0);
    ShareAt(ms, Sum(ms), e, 1);
    ShareAt(ms, Sum(ms), e, 2);
  }

  // ----- four feeds: a deficit run can reorder -----

  const DEFICIT_WEIGHTS := [0.4, 0.36, 0.12, 0.12]

  /**
   On a deficit run the heavier of two feeds can end with less: with limits [2, 3.61] and a total
   of 10 the loop exits with the feed of weight 0.4 below the feed of weight 0.36.
   */
  lemma DeficitReorders()
    ensures var o := Rounds(RawShares(10.0, DEFICIT_WEIGHTS), DEFICIT_WEIGHTS, 2.0, 3.61, 2);
      o.Balanced? && o.values[0] < o.values[1]
  {
    var ws := DEFICIT_WEIGHTS;
    var xs := RawShares(10.0, ws);
    assert xs == [4.0, 3.6, 1.2, 1.2];
    var cs := Clamped(xs, 2.0, 3.61);
    assert cs == [3.61, 3.6, 2.0, 2.0];
    SumFour(4.0, 3.6, 1.2, 1.2);
    SumFour(3.61, 3.6, 2.0, 2.0);
    var a := -1.21;
    var ms := OpenWeights(xs, ws, a, 2.0, 3.61);
    assert ms == [0.4, 0.36, 0.0, 0.0];
    SumFour(0.4, 0.36, 0.0, 0.0);
    assert !Locked(xs[0], a, 2.0, 3.61);
    ShareAt(ms, Sum(ms), a, 0);
    ShareAt(ms, Sum(ms), a, 1);
    ShareAt(ms, Sum(ms), a, 2);
    ShareAt(ms, Sum(ms), a, 3);
    FirstRound(xs, ws, 2.0, 3.61);
    var ys := Round(xs, ws, 2.0, 3.61).values;
    RoundConserves(xs, ws, 2.0, 3.61);
    assert Clamped(ys, 2.0, 3.61) == ys;
    assert Rounds(xs, ws, 2.0, 3.61, 2) == Round(ys, ws, 2.0, 3.61);
  }

  // ----- negative weights -----

  /** What two feeds of weights 0 and 1 and a third one that joined them weigh. */
  const JOINED_WEIGHTS := [-1.0 / 6.0, 5.0 / 6.0, 1.0 / 3.0]

  /**
   With a negative weight a run can turn: with limits [0, 5] and a total of 9 a surplus of 1 is
   followed by a deficit of 1, and the loop exits with the feed of weight 5/6 below the one of 1/3.
   */
  lemma NegativeWeightTurns()
    ensures var xs := RawShares(9.0, JOINED_WEIGHTS);
      && Adjustment(xs, 0.0, 5.0) == 1.0
      && Round(xs, JOINED_WEIGHTS, 0.0, 5.0).Looping?
      && Adjustment(Round(xs, JOINED_WEIGHTS, 0.0, 5.0).values, 0.0, 5.0) == -1.0
    ensures Rounds(RawShares(9.0, JOINED_WEIGHTS), JOINED_WEIGHTS, 0.0, 5.0, 3) == Balanced([0.0, 30.0 / 7.0, 33.0 / 7.0])
  {
    SurplusOfOne();
    DeficitOfOne();
    ThreeRounds(RawShares(9.0, JOINED_WEIGHTS), [-1.0, 5.0, 5.0], [0.0, 30.0 / 7.0, 33.0 / 7.0], JOINED_WEIGHTS, 0.0, 5.0);
  }

  lemma ThreeRounds(xs: seq<real>, ys: seq<real>, zs: seq<real>, ws: seq<real>, lo: real, hi: real)
    requires |xs| == |ys| == |zs| == |ws| && Within(zs, lo, hi)
    requires Round(xs, ws, lo, hi) == Looping(ys) && Round(ys, ws, lo, hi) == Looping(zs)
    ensures Rounds(xs, ws, lo, hi, 3) == Balanced(zs)
  {
    LastRoundClamps(zs, ws, lo, hi);
    hide Round;
    FirstRound(xs, ws, lo, hi);
    assert Rounds(xs, ws, lo, hi, 2) == Looping(zs);
  }

  lemma SurplusOfOne()
    ensures RawShares(9.0, JOINED_WEIGHTS) == [-1.5, 7.5, 3.0]
    ensures Adjustment([-1.5, 7.5, 3.0], 0.0, 5.0) == 1.0
    ensures Round([-1.5, 7.5, 3.0], JOINED_WEIGHTS, 0.0, 5.0) == Looping([-1.0, 5.0, 5.0])
  {
    var xs := [-1.5, 7.5, 3.0];
    assert RawShares(9.0, JOINED_WEIGHTS) == xs;
    ThreeClamped(xs, 0.0, 5.0, [0.0, 5.0, 3.0], 1.0);
    hide Adjustment, RawShares, Clamped;
    ThreeRound(xs, JOINED_WEIGHTS, 0.0, 5.0, [-1.0 / 6.0, 0.0, 1.0 / 3.0], 1.0 / 6.0, 0, 1.0, [0.0, 5.0, 3.0], [-1.0, 5.0, 5.0]);
  }

  lemma DeficitOfOne()
    ensures Adjustment([-1.0, 5.0, 5.0], 0.0, 5.0) == -1.0
    ensures Round([-1.0, 5.0, 5.0], JOINED_WEIGHTS, 0.0, 5.0) == Looping([0.0, 30.0 / 7.0, 33.0 / 7.0])
  {
    var ys := [-1.0, 5.0, 5.0];
    ThreeClamped(ys, 0.0, 5.0, [0.0, 5.0, 5.0], -1.0);
    hide Adjustment, Clamped;
    ThreeRound(ys, JOINED_WEIGHTS, 0.0, 5.0, [0.0, 5.0 / 6.0, 1.0 / 3.0], 7.0 / 6.0, 1, -1.0, [0.0, 5.0, 5.0], [0.0, 30.0 / 7.0, 33.0 / 7.0]);
  }

  lemma ThreeClamped(xs: seq<real>, lo: real, hi: real, cs: seq<real>, a: real)
    requires |xs| == |cs| == 3 && forall i :: 0 <= i < 3 ==> cs[i] == Clamp(xs[i], lo, hi)
    requires a == xs[0] + xs[1] + xs[2] - cs[0] - cs[1] - cs[2]
    ensures Clamped(xs, lo, hi) == cs && Adjustment(xs, lo, hi) == a
  {
    assert xs == [xs[0], xs[1], xs[2]] && cs == [cs[0], cs[1], cs[2]];
    SumThree(xs[0], xs[1], xs[2]);
    SumThree(cs[0], cs[1], cs[2]);
    assert Clamped(xs, lo, hi) == cs;
  }

  /** s is to the adjustment a as the weight w is to the open weight m. */
  predicate IsShare(s: real, a: real, w: real, m: real)
  {
    s * m == a * w
  }

  /** A round over three feeds that leaves ys, given their open weights ms of sum m and one feed that is open. */
  lemma ThreeRound(xs: seq<real>, ws: seq<real>, lo: real, hi: real, ms: seq<real>, m: real, open: nat, a: real, cs: seq<real>, ys: seq<real>)
    requires |xs| == |ws| == |ms| == |ys| == 3 && open < 3 && !Locked(xs[open], a, lo, hi)
    requires Clamped(xs, lo, hi) == cs && Adjustment(xs, lo, hi) == a != 0.0
    requires forall i :: 0 <= i < 3 ==> ms[i] == if Locked(xs[i], a, lo, hi) then 0.0 else ws[i]
    requires m == ms[0] + ms[1] + ms[2] != 0.0
    requires forall i :: 0 <= i < 3 ==> IsShare(ys[i] - cs[i], a, ms[i], m)
    ensures Round(xs, ws, lo, hi) == Looping(ys)
  {
    assert ms == [ms[0], ms[1], ms[2]];
    SumThree(ms[0], ms[1], ms[2]);
    assert OpenWeights(xs, ws, a, lo, hi) == ms;
    hide Sum, ShareOf, IsShare;
    forall i | 0 <= i < 3 ensures Shares(ms, m, a)[i] == ys[i] - cs[i] {
      ShareAt(ms, m, a, i);
      ShareIs(a, ms[i], m, ys[i] - cs[i]);
    }
    assert Added(cs, Shares(ms, m, a)) == ys;
  }

  lemma ShareIs(a: real, w: real, m: real, s: real)
    requires m != 0.0 && IsShare(s, a, w, m)
    ensures ShareOf(a, w, m) == s
  {
    var q := a * (w / m);
    assert q * m == a * w;
    assert (q - s) * m == 0.0;
  }

  /** What three feeds of weights 0, 1/6 and 5/6 and a fourth one that joined them weigh. */
  const CANCELLING_WEIGHTS := [-1.0 / 12.0, 1.0 / 12.0, 3.0 / 4.0, 1.0 / 4.0]

  /** Without any weight of zero the division raises where the remaining weights cancel out. */
  lemma NegativeWeightRaises()
    ensures Round(RawShares(24.0, CANCELLING_WEIGHTS), CANCELLING_WEIGHTS, 0.0, 5.0).ZeroWeights?
  {
    var ws := CANCELLING_WEIGHTS;
    var xs := RawShares(24.0, ws);
    assert xs == [-2.0, 2.0, 18.0, 6.0];
    var cs := Clamped(xs, 0.0, 5.0);
    assert cs == [0.0, 2.0, 5.0, 5.0];
    SumFour(-2.0, 2.0, 18.0, 6.0);
    SumFour(0.0, 2.0, 5.0, 5.0);
    var ms := OpenWeights(xs, ws, 12.0, 0.0, 5.0);
    assert ms == [-1.0 / 12.0, 1.0 / 12.0, 0.0, 0.0];
    SumFour(-1.0 / 12.0, 1.0 / 12.0, 0.0, 0.0);
    assert !Locked(xs[0], 12.0, 0.0, 5.0);
  }
}
