/** The clamp-and-redistribute loop as it runs: in place, with lists of clamped and remaining feeds. */
module LimitMethod {
  import opened Options
  import opened Sums
  import opened LimitLoop
  import opened LimitTheorems
  import opened LimitExits

  /** How a pass ends: the loop goes round, stops, breaks with no feed left, or divides by zero. */
  datatype Pass = GoOn | Stop | Break | DivideByZero

  function OutcomeOf(p: Pass, values: seq<real>): Outcome
  {
    match p
    case GoOn => Looping(values)
    case Stop => Balanced(values)
    case Break => Saturated(values)
    case DivideByZero => ZeroWeights(values)
  }

  /** The indices below n that are not locked, in order. */
  function OpenIndices(xs: seq<real>, adjustment: real, lo: real, hi: real, n: nat): (ids: seq<nat>)
    requires n <= |xs|
    ensures forall j :: 0 <= j < |ids| ==> ids[j] < n
    ensures forall i :: 0 <= i < n ==> (i in ids <==> !Locked(xs[i], adjustment, lo, hi))
    ensures forall j, k :: 0 <= j < k < |ids| ==> ids[j] < ids[k]
  {
    if n == 0 then []
    else
      var ids := OpenIndices(xs, adjustment, lo, hi, n - 1);
      if Locked(xs[n - 1], adjustment, lo, hi) then ids else ids + [n - 1]
  }

  function Picked(ws: seq<real>, ids: seq<nat>): (vs: seq<real>)
    requires forall j :: 0 <= j < |ids| ==> ids[j] < |ws|
    ensures |vs| == |ids|
  {
    seq(|ids|, j requires 0 <= j < |ids| => ws[ids[j]])
  }

  /** The weights of the remaining feeds add up to the open weights. */
  lemma {:induction false} PickedSum(xs: seq<real>, ws: seq<real>, adjustment: real, lo: real, hi: real, n: nat)
    requires |xs| == |ws| && n <= |xs|
    ensures Sum(Picked(ws, OpenIndices(xs, adjustment, lo, hi, n))) == Sum(OpenWeights(xs, ws, adjustment, lo, hi)[..n])
  {
    if n > 0 {
      PickedSum(xs, ws, adjustment, lo, hi, n - 1);
      var ms := OpenWeights(xs, ws, adjustment, lo, hi);
      assert ms[..n] == ms[..n - 1] + [ms[n - 1]];
      SumSnoc(ms[..n - 1], ms[n - 1]);
      var ids := OpenIndices(xs, adjustment, lo, hi, n - 1);
      if !Locked(xs[n - 1], adjustment, lo, hi) {
        assert Picked(ws, ids + [n - 1]) == Picked(ws, ids) + [ws[n - 1]];
        SumSnoc(Picked(ws, ids), ws[n - 1]);
      }
    }
  }

  /** The first half of a pass: clamp every share, add up what was cut off and remember where. */
  method ClampInPlace(a: array<real>, lo: real, hi: real) returns (adjustment: real, maxFeeds: seq<nat>, minFeeds: seq<nat>)
    modifies a
    ensures a[..] == Clamped(old(a[..]), lo, hi)
    ensures adjustment == Adjustment(old(a[..]), lo, hi)
    ensures forall i :: 0 <= i < a.Length ==> (i in maxFeeds <==> old(a[i]) > hi)
    ensures forall i :: 0 <= i < a.Length ==> (i in minFeeds <==> old(a[i]) <= hi && old(a[i]) < lo)
  {
    hide Sum, Clamped, CutOff;
    ghost var xs := a[..];
    adjustment, maxFeeds, minFeeds := 0.0, [], [];
    CutOffAll(xs, lo, hi);
    for i := 0 to a.Length
      invariant forall j :: 0 <= j < i ==> a[j] == Clamp(xs[j], lo, hi)
      invariant forall j :: i <= j < a.Length ==> a[j] == xs[j]
      invariant adjustment == CutOff(xs, lo, hi, i)
      invariant forall j :: 0 <= j < a.Length ==> (j in maxFeeds <==> j < i && xs[j] > hi)
      invariant forall j :: 0 <= j < a.Length ==> (j in minFeeds <==> j < i && xs[j] <= hi && xs[j] < lo)
    {
      var share := a[i];
      if share > hi {
        adjustment := adjustment + (share - hi);
        a[i] := hi;
        maxFeeds := maxFeeds + [i];
      } else if share < lo {
        adjustment := adjustment - (lo - share);
        a[i] := lo;
        minFeeds := minFeeds + [i];
      }
      CutOffNext(xs, lo, hi, i);
    }
    CutOffAll(xs, lo, hi);
    ClampedIs(xs, lo, hi, a[..]);
  }

  /** The adjustment counted over the first n shares. */
  ghost function CutOff(xs: seq<real>, lo: real, hi: real, n: nat): real
    requires n <= |xs|
  {
    Sum(xs[..n]) - Sum(Clamped(xs, lo, hi)[..n])
  }

  lemma CutOffNext(xs: seq<real>, lo: real, hi: real, n: nat)
    requires n < |xs|
    ensures CutOff(xs, lo, hi, n + 1) == CutOff(xs, lo, hi, n) + xs[n] - Clamp(xs[n], lo, hi)
  {
    assert xs[..n + 1] == xs[..n] + [xs[n]];
    SumSnoc(xs[..n], xs[n]);
    var cs := Clamped(xs, lo, hi);
    assert cs[..n + 1] == cs[..n] + [cs[n]];
    SumSnoc(cs[..n], cs[n]);
  }

  lemma CutOffAll(xs: seq<real>, lo: real, hi: real)
    ensures CutOff(xs, lo, hi, 0) == 0.0
    ensures CutOff(xs, lo, hi, |xs|) == Adjustment(xs, lo, hi)
  {
    assert xs[..|xs|] == xs;
    assert Clamped(xs, lo, hi)[..|xs|] == Clamped(xs, lo, hi);
  }

  lemma ClampedIs(xs: seq<real>, lo: real, hi: real, cs: seq<real>)
    requires |cs| == |xs| && forall i :: 0 <= i < |xs| ==> cs[i] == Clamp(xs[i], lo, hi)
    ensures cs == Clamped(xs, lo, hi)
  {
  }

  /** The feeds that may still receive something: all those not on the list of the clamped side, in order of arrival. */
  method RemainingFeeds(n: nat, noMore: seq<nat>, ghost xs: seq<real>, ghost adjustment: real, ghost lo: real, ghost hi: real)
    returns (remaining: seq<nat>)
    requires n == |xs|
    requires forall i :: 0 <= i < n ==> (i in noMore <==> Locked(xs[i], adjustment, lo, hi))
    ensures remaining == OpenIndices(xs, adjustment, lo, hi, n)
  {
    remaining := [];
    for i := 0 to n
      invariant remaining == OpenIndices(xs, adjustment, lo, hi, i)
    {
      if i !in noMore {
        remaining := remaining + [i];
      }
    }
  }

  method TotalWeight(ws: seq<real>, remaining: seq<nat>) returns (denominator: real)
    requires forall j :: 0 <= j < |remaining| ==> remaining[j] < |ws|
    ensures denominator == Sum(Picked(ws, remaining))
  {
    denominator := 0.0;
    ghost var vs := Picked(ws, remaining);
    for j := 0 to |remaining|
      invariant denominator == Sum(vs[..j])
    {
      denominator := denominator + ws[remaining[j]];
      assert vs[..j + 1] == vs[..j] + [vs[j]];
      SumSnoc(vs[..j], vs[j]);
    }
    assert vs[..|remaining|] == vs;
  }

  /** The second half of a pass: every remaining feed receives its part of the adjustment. */
  method Redistribute(a: array<real>, ws: seq<real>, remaining: seq<nat>, adjustment: real, denominator: real)
    requires a.Length == |ws| && denominator != 0.0
    requires forall j :: 0 <= j < |remaining| ==> remaining[j] < a.Length
    requires forall j, k :: 0 <= j < k < |remaining| ==> remaining[j] < remaining[k]
    modifies a
    ensures forall i :: 0 <= i < a.Length ==>
      a[i] == old(a[i]) + if i in remaining then ShareOf(adjustment, ws[i], denominator) else 0.0
  {
    for j := 0 to |remaining|
      invariant forall i :: 0 <= i < a.Length ==>
        a[i] == old(a[i]) + if i in remaining[..j] then ShareOf(adjustment, ws[i], denominator) else 0.0
    {
      var i := remaining[j];
      assert i !in remaining[..j];
      var weight := ws[i] / denominator;
      a[i] := a[i] + adjustment * weight;
      assert adjustment * weight == ShareOf(adjustment, ws[i], denominator);
      assert remaining[..j + 1] == remaining[..j] + [i];
    }
    assert remaining[..|remaining|] == remaining;
  }

  /** One pass of the loop body leaves exactly what the round function says. */
  method RunRound(a: array<real>, ws: seq<real>, lo: real, hi: real) returns (p: Pass)
    requires a.Length == |ws|
    modifies a
    ensures OutcomeOf(p, a[..]) == Round(old(a[..]), ws, lo, hi)
  {
    hide Sum, Adjustment, OpenIndices, OpenWeights, Picked, ShareOf, Shares, Added, Round;
    ghost var xs := a[..];
    var adjustment, maxFeeds, minFeeds := ClampInPlace(a, lo, hi);
    ghost var ms := OpenWeights(xs, ws, adjustment, lo, hi);
    if adjustment == 0.0 {
      RoundStops(xs, ws, lo, hi);
      return Stop;
    }
    var noMore := if adjustment < 0.0 then minFeeds else maxFeeds;
    var remaining := RemainingFeeds(a.Length, noMore, xs, adjustment, lo, hi);
    if remaining == [] {
      RoundStops(xs, ws, lo, hi);
      return Break;
    }
    assert remaining[0] in remaining;
    var denominator := TotalWeight(ws, remaining);
    OpenWeightSum(xs, ws, adjustment, lo, hi);
    if denominator == 0.0 {
      RoundStops(xs, ws, lo, hi);
      return DivideByZero;
    }
    Redistribute(a, ws, remaining, adjustment, denominator);
    RedistributedIsAdded(xs, ws, adjustment, lo, hi, a[..]);
    RoundGoesOn(xs, ws, lo, hi);
    return GoOn;
  }

  lemma OpenWeightSum(xs: seq<real>, ws: seq<real>, a: real, lo: real, hi: real)
    requires |xs| == |ws|
    ensures Sum(Picked(ws, OpenIndices(xs, a, lo, hi, |xs|))) == Sum(OpenWeights(xs, ws, a, lo, hi))
  {
    PickedSum(xs, ws, a, lo, hi, |xs|);
    assert OpenWeights(xs, ws, a, lo, hi)[..|xs|] == OpenWeights(xs, ws, a, lo, hi);
  }

  lemma RoundStops(xs: seq<real>, ws: seq<real>, lo: real, hi: real)
    requires |xs| == |ws|
    ensures var a := Adjustment(xs, lo, hi);
      var cs := Clamped(xs, lo, hi);
      && (a == 0.0 ==> Round(xs, ws, lo, hi) == Balanced(cs))
      && (a != 0.0 && AllLocked(xs, a, lo, hi) ==> Round(xs, ws, lo, hi) == Saturated(cs))
      && ((a != 0.0 && !AllLocked(xs, a, lo, hi) && Sum(OpenWeights(xs, ws, a, lo, hi)) == 0.0)
          ==> Round(xs, ws, lo, hi) == ZeroWeights(cs))
  {
  }

  lemma RoundGoesOn(xs: seq<real>, ws: seq<real>, lo: real, hi: real)
    requires |xs| == |ws| && Adjustment(xs, lo, hi) != 0.0
    requires !AllLocked(xs, Adjustment(xs, lo, hi), lo, hi)
    requires Sum(OpenWeights(xs, ws, Adjustment(xs, lo, hi), lo, hi)) != 0.0
    ensures var a := Adjustment(xs, lo, hi);
      var ms := OpenWeights(xs, ws, a, lo, hi);
      Round(xs, ws, lo, hi) == Looping(Added(Clamped(xs, lo, hi), Shares(ms, Sum(ms), a)))
  {
  }

  lemma RedistributedIsAdded(xs: seq<real>, ws: seq<real>, a: real, lo: real, hi: real, ys: seq<real>)
    requires |xs| == |ws| == |ys|
    requires Sum(OpenWeights(xs, ws, a, lo, hi)) != 0.0
    requires var m := Sum(OpenWeights(xs, ws, a, lo, hi));
      forall i :: 0 <= i < |xs| ==>
        ys[i] == Clamp(xs[i], lo, hi) + if !Locked(xs[i], a, lo, hi) then ShareOf(a, ws[i], m) else 0.0
    ensures var ms := OpenWeights(xs, ws, a, lo, hi);
      ys == Added(Clamped(xs, lo, hi), Shares(ms, Sum(ms), a))
  {
    hide ShareOf, Sum;
    var ms := OpenWeights(xs, ws, a, lo, hi);
    forall i | 0 <= i < |xs| ensures ys[i] == Added(Clamped(xs, lo, hi), Shares(ms, Sum(ms), a))[i] {
      ShareAt(ms, Sum(ms), a, i);
      NothingShared(a, Sum(ms));
    }
  }

  /**
   The loop itself. Whatever it exits with is the exit of the unbounded loop. With weights that
   are not negative and ordered limits it gives up only on a loop that never exits; patience is
   how many more passes it takes where that is not decided after three.
   */
  method RespectLimits(a: array<real>, ws: seq<real>, lo: real, hi: real, patience: nat) returns (p: Pass)
    requires a.Length == |ws|
    modifies a
    ensures OutcomeOf(p, a[..]) == Rounds(old(a[..]), ws, lo, hi, 3 + patience)
    ensures p != GoOn ==> LoopExit(old(a[..]), ws, lo, hi) == Some(OutcomeOf(p, a[..]))
    ensures p == GoOn && NonNegative(ws) && lo <= hi ==> LoopExit(old(a[..]), ws, lo, hi) == None
  {
    hide Round, Rounds, LoopExit, NonNegative;
    ghost var xs := a[..];
    p := GoOn;
    var k := 0;
    NoRounds(xs, ws, lo, hi);
    while k < 3 + patience && p == GoOn
      invariant k <= 3 + patience
      invariant OutcomeOf(p, a[..]) == Rounds(xs, ws, lo, hi, k)
    {
      UnfoldRounds(xs, ws, lo, hi, k);
      p := RunRound(a, ws, lo, hi);
      k := k + 1;
    }
    RunStops(xs, ws, lo, hi, k, 3 + patience);
    ExitDecided(xs, ws, lo, hi, 3 + patience);
  }

  lemma NoRounds(xs: seq<real>, ws: seq<real>, lo: real, hi: real)
    requires |xs| == |ws|
    ensures Rounds(xs, ws, lo, hi, 0) == Looping(xs)
  {
  }

  lemma ExitDecided(xs: seq<real>, ws: seq<real>, lo: real, hi: real, k: nat)
    requires |xs| == |ws| && k >= 3
    ensures var o := Rounds(xs, ws, lo, hi, k);
      && (!o.Looping? ==> LoopExit(xs, ws, lo, hi) == Some(o))
      && (o.Looping? && NonNegative(ws) && lo <= hi ==> LoopExit(xs, ws, lo, hi) == None)
  {
    hide Rounds, LoopExit, NonNegative;
    if !Rounds(xs, ws, lo, hi, k).Looping? {
      ExitIs(xs, ws, lo, hi, k);
    } else if NonNegative(ws) && lo <= hi {
      LoopExitExists(xs, ws, lo, hi);
      RunStops(xs, ws, lo, hi, 3, k);
      ExitsWithinThree(xs, ws, lo, hi);
    }
  }
}
