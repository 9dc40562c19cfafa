/** What equal weights mean for allocations: the limit loop always exits, and everybody is sent the same. */
module UniformAllocation {
  import opened Sums
  import opened LimitLoop
  import opened LimitTheorems
  import opened LimitFairness
  import opened LimitExits
  import opened Feeds
  import opened FeedInvariants
  import opened FeedWeights
  import opened FeedRuns
  import opened Allocation

  /** With equal weights the first round is the last, and every share is the clamped raw one. */
  lemma EqualExit(total: real, ws: seq<real>, w: real, lo: real, hi: real)
    requires lo <= hi && forall i :: 0 <= i < |ws| ==> ws[i] == w
    ensures var e := LoopExit(RawShares(total, ws), ws, lo, hi);
      Exits(e) && forall i :: 0 <= i < |ws| ==> e.value.values[i] == Clamp(total * w, lo, hi)
  {
    var xs := RawShares(total, ws);
    EqualRound(total * w, xs, ws, lo, hi);
    FirstRound(xs, ws, lo, hi);
    ExitIs(xs, ws, lo, hi, 1);
  }

  lemma EqualRound(x: real, xs: seq<real>, ws: seq<real>, lo: real, hi: real)
    requires |xs| == |ws| && lo <= hi && forall i :: 0 <= i < |xs| ==> xs[i] == x
    ensures var o := Round(xs, ws, lo, hi);
      (o.Balanced? || o.Saturated?) && forall i :: 0 <= i < |xs| ==> o.values[i] == Clamp(x, lo, hi)
  {
    if |xs| > 0 && !(lo <= x <= hi) {
      AllPastSaturates(xs, ws, lo, hi);
    } else {
      WithinIsUnadjusted(xs, lo, hi);
    }
  }

  /** The limits of every action that is asked for are ordered. */
  ghost predicate LimitsOrderedFor(t: Table, keys: set<Key>)
  {
    forall key :: key in keys && key in t.limits ==> t.limits[key].0 <= t.limits[key].1
  }

  /** What each of n equally weighted feeds is sent of a total. */
  function EqualShare(t: Table, total: real, n: nat, key: Key): real
    requires n > 0
  {
    var raw := total * EqualPart(n);
    if key in t.limits then Clamp(raw, t.limits[key].0, t.limits[key].1) else raw
  }

  lemma EqualLimited(t: Table, arrived: seq<Name>, actions: map<Name, Actions>, key: Key, n: nat)
    requires LooksUp(arrived, actions, t.weights) && key in actions[arrived[0]] && n > 0 && Distinct(arrived)
    requires forall f :: f in arrived && f in t.weights ==> t.weights[f] == EqualPart(n)
    requires key in t.limits ==> t.limits[key].0 <= t.limits[key].1
    ensures var e := Limited(t, arrived, actions, key);
      Exits(e) && forall i :: 0 <= i < |arrived| ==>
        e.value.values[i] == EqualShare(t, SumOf(Requested(arrived, actions, key)), n, key)
  {
    var ws := WeightsOf(arrived, t.weights);
    var total := Sum(Values(arrived, actions, key));
    RequestedTotal(arrived, actions, key);
    EqualWeights(arrived, t.weights, EqualPart(n));
    assert Raws(t, arrived, actions, key) == RawShares(total, ws);
    hide EqualPart, LoopExit, Raws, Values, WeightsOf, Requested, Distinct, Sum, SumOf, LooksUp;
    if key in t.limits {
      EqualExit(total, ws, EqualPart(n), t.limits[key].0, t.limits[key].1);
      hide RawShares;
    } else {
      EqualRaws(total, ws, EqualPart(n));
      hide RawShares;
    }
  }

  lemma EqualRaws(total: real, ws: seq<real>, w: real)
    requires forall i :: 0 <= i < |ws| ==> ws[i] == w
    ensures forall i :: 0 <= i < |ws| ==> RawShares(total, ws)[i] == total * w
  {
  }

  lemma EqualWeights(arrived: seq<Name>, weights: map<Name, real>, w: real)
    requires forall f :: f in arrived ==> f in weights && weights[f] == w
    ensures forall i :: 0 <= i < |arrived| ==> WeightsOf(arrived, weights)[i] == w
  {
    forall i | 0 <= i < |arrived| ensures WeightsOf(arrived, weights)[i] == w {
      assert arrived[i] in arrived;
    }
  }

  /**
   End to end: after any run of commands without user weights, from uniform weights, no allocation
   of actions with ordered limits hangs or raises in the limit loop, and every allocated feed that
   arrived is sent the n-th part of the sum asked for, clamped to the limits.
   */
  lemma UniformRunSharesEqually(t: Table, commands: seq<Command>, arrived: seq<Name>, actions: map<Name, Actions>)
    requires Sound(t) && AllEqual(t.weights) && NoUserWeights(commands) && !Run(t, commands).raised
    requires Distinct(arrived) && forall f :: f in arrived ==> f in Run(t, commands).table.alloc
    requires LooksUp(arrived, actions, Run(t, commands).table.weights)
    requires LimitsOrderedFor(Run(t, commands).table, actions[arrived[0]].Keys)
    ensures var t' := Run(t, commands).table;
      && |t'.alloc| > 0 && AllExit(t', arrived, actions)
      && forall f, key :: f in arrived && key in actions[arrived[0]] ==>
           SharesFor(t', arrived, actions, f)[key] == EqualShare(t', SumOf(Requested(arrived, actions, key)), |t'.alloc|, key)
  {
    RunStaysUniform(t, commands);
    var t' := Run(t, commands).table;
    hide Run, Sound, AllEqual, NoUserWeights;
    SharesEqually(t', arrived, actions);
  }

  lemma SharesEqually(t: Table, arrived: seq<Name>, actions: map<Name, Actions>)
    requires forall f :: f in t.alloc ==> f in t.weights
    requires t.alloc != map[] ==> forall f :: f in t.alloc ==> t.weights[f] == EqualPart(|t.alloc|)
    requires Distinct(arrived) && forall f :: f in arrived ==> f in t.alloc
    requires LooksUp(arrived, actions, t.weights) && LimitsOrderedFor(t, actions[arrived[0]].Keys)
    ensures |t.alloc| > 0 && AllExit(t, arrived, actions)
    ensures forall f, key :: f in arrived && key in actions[arrived[0]] ==>
      SharesFor(t, arrived, actions, f)[key] == EqualShare(t, SumOf(Requested(arrived, actions, key)), |t.alloc|, key)
  {
    assert arrived[0] in arrived && arrived[0] in t.alloc;
    hide EqualPart, Limited, EqualShare, Exits, Requested, Distinct;
    forall key | key in actions[arrived[0]]
      ensures Exits(Limited(t, arrived, actions, key)) && forall i :: 0 <= i < |arrived| ==>
        Limited(t, arrived, actions, key).value.values[i] == EqualShare(t, SumOf(Requested(arrived, actions, key)), |t.alloc|, key)
    {
      EqualLimited(t, arrived, actions, key, |t.alloc|);
    }
  }
}
