/** Parts of the feeds, their weight, and what the signs of weights in a part mean for a round. */
module LimitParts {
  import opened Sums
  import opened LimitLoop

  /** The weights of the feeds in the part, 0.0 for the others. */
  function Masked(ws: seq<real>, part: seq<bool>): (ms: seq<real>)
    requires |ws| == |part|
    ensures |ms| == |ws|
  {
    seq(|ws|, i requires 0 <= i < |ws| => if part[i] then ws[i] else 0.0)
  }

  function Weight(ws: seq<real>, part: seq<bool>): real
    requires |ws| == |part|
  {
    Sum(Masked(ws, part))
  }

  /** Some feeds but not all. */
  ghost predicate Proper(part: seq<bool>)
  {
    (exists i :: 0 <= i < |part| && part[i]) && (exists i :: 0 <= i < |part| && !part[i])
  }

  /** With a feed the part has every lighter or equally heavy one. */
  ghost predicate Lower(ws: seq<real>, part: seq<bool>)
  {
    |ws| == |part| && forall i, j :: 0 <= i < |ws| && 0 <= j < |ws| && part[i] && ws[j] <= ws[i] ==> part[j]
  }

  /** No weight in the part has the opposite sign of the part's weight. */
  ghost predicate Agrees(ws: seq<real>, part: seq<bool>)
    requires |ws| == |part|
  {
    forall i :: 0 <= i < |ws| && part[i] ==>
      (Weight(ws, part) > 0.0 ==> ws[i] >= 0.0) && (Weight(ws, part) < 0.0 ==> ws[i] <= 0.0)
  }

  ghost predicate SameSigns(ws: seq<real>)
  {
    forall part: seq<bool> :: |part| == |ws| && Proper(part) ==> Agrees(ws, part)
  }

  ghost predicate Uniform(ws: seq<real>, part: seq<bool>)
    requires |ws| == |part|
  {
    forall i, j :: 0 <= i < |ws| && 0 <= j < |ws| && part[i] && part[j] ==> ws[i] == ws[j]
  }

  /** The lightest feeds, up to some weight, weigh less than nothing together only if they weigh the same. */
  ghost predicate Graded(ws: seq<real>)
  {
    forall part: seq<bool> :: Lower(ws, part) && Proper(part) && Weight(ws, part) < 0.0 ==> Uniform(ws, part)
  }

  ghost predicate NoZeroPart(ws: seq<real>)
  {
    forall part: seq<bool> :: |part| == |ws| && Proper(part) ==> Weight(ws, part) != 0.0
  }

  lemma WeightNotNegative(ws: seq<real>, part: seq<bool>)
    requires NonNegative(ws) && |part| == |ws|
    ensures Weight(ws, part) >= 0.0
  {
    var zeros := seq(|ws|, i => 0.0);
    SumZeros(zeros);
    SumMonotone(zeros, Masked(ws, part));
  }

  /** Weights that are not negative meet both conditions on signs. */
  lemma NonNegativeAgree(ws: seq<real>)
    requires NonNegative(ws)
    ensures SameSigns(ws) && Graded(ws)
  {
    hide Weight;
    forall part: seq<bool> | |part| == |ws| ensures Weight(ws, part) >= 0.0 {
      WeightNotNegative(ws, part);
    }
  }

  /** Weights that are not positive, one of them negative, weigh less than nothing. */
  lemma WeightNegative(ws: seq<real>, part: seq<bool>, j: nat)
    requires |part| == |ws| && j < |ws| && part[j] && ws[j] < 0.0
    requires forall i :: 0 <= i < |ws| && part[i] ==> ws[i] <= 0.0
    ensures Weight(ws, part) < 0.0
  {
    var zeros := seq(|ws|, i => 0.0);
    SumZeros(zeros);
    SumGap(Masked(ws, part), zeros, j);
  }

  // ----- the part that stays open in a round -----

  function OpenPart(xs: seq<real>, lo: real, hi: real): (part: seq<bool>)
    ensures |part| == |xs|
  {
    seq(|xs|, i requires 0 <= i < |xs| => !Locked(xs[i], Adjustment(xs, lo, hi), lo, hi))
  }

  lemma SomeoneIsUnder(xs: seq<real>, lo: real, hi: real)
    requires Adjustment(xs, lo, hi) < 0.0
    ensures exists i :: 0 <= i < |xs| && xs[i] <= hi && xs[i] < lo
  {
    if forall i :: 0 <= i < |xs| ==> !(xs[i] <= hi && xs[i] < lo) {
      SumMonotone(Clamped(xs, lo, hi), xs);
    }
  }

  /** Unless there is nothing to adjust somebody is locked, and the open feeds' weight is what is divided by. */
  lemma OpenPartIs(xs: seq<real>, ws: seq<real>, lo: real, hi: real)
    requires |xs| == |ws| && Adjustment(xs, lo, hi) != 0.0
    ensures OpenTotal(xs, ws, lo, hi) == Weight(ws, OpenPart(xs, lo, hi))
    ensures !AllLocked(xs, Adjustment(xs, lo, hi), lo, hi) ==> Proper(OpenPart(xs, lo, hi))
  {
    var a, part := Adjustment(xs, lo, hi), OpenPart(xs, lo, hi);
    assert OpenWeights(xs, ws, a, lo, hi) == Masked(ws, part);
    if a > 0.0 {
      SomeoneIsOver(xs, lo, hi);
    } else {
      SomeoneIsUnder(xs, lo, hi);
    }
    var i :| 0 <= i < |xs| && Locked(xs[i], a, lo, hi);
    assert !part[i];
    if !AllLocked(xs, a, lo, hi) {
      var j :| 0 <= j < |xs| && !Locked(xs[j], a, lo, hi);
      assert part[j];
    }
  }

  lemma ShareNotNegative(a: real, w: real, m: real)
    requires a > 0.0 && m != 0.0 && (m > 0.0 ==> w >= 0.0) && (m < 0.0 ==> w <= 0.0)
    ensures ShareOf(a, w, m) >= 0.0
  {
    var q := w / m;
    assert q * m == w;
    assert q >= 0.0;
  }

  /** When the signs agree, an open feed never pays for a surplus. */
  lemma OpenGains(xs: seq<real>, ws: seq<real>, lo: real, hi: real, i: nat)
    requires |xs| == |ws| && SameSigns(ws) && i < |xs| && Adjustment(xs, lo, hi) > 0.0
    requires Round(xs, ws, lo, hi).Looping? && xs[i] <= hi
    ensures OpenTotal(xs, ws, lo, hi) != 0.0
    ensures ShareOf(Adjustment(xs, lo, hi), ws[i], OpenTotal(xs, ws, lo, hi)) >= 0.0
  {
    OpenPartIs(xs, ws, lo, hi);
    var part := OpenPart(xs, lo, hi);
    assert part[i] && Agrees(ws, part);
    ShareNotNegative(Adjustment(xs, lo, hi), ws[i], OpenTotal(xs, ws, lo, hi));
  }
}
