/** One allocation: the arrived actions are summed, split by weight, limited and published. */
module Allocation {
  import opened Options
  import opened Sums
  import opened LimitLoop
  import opened LimitTheorems
  import opened LimitFairness
  import opened LimitExits
  import opened LimitRaises
  import opened Feeds
  import opened FeedInvariants
  import opened FeedWeights

  type Actions = map<Key, real>

  /** The feeds with an aggregated action that are (still) allocated, in order of arrival. */
  function Arrived(order: seq<Name>, alloc: map<Name, Topic>): (fs: seq<Name>)
    ensures forall f :: f in fs <==> f in order && f in alloc
    ensures Distinct(order) ==> Distinct(fs)
  {
    if order == [] then []
    else
      var rest := Arrived(order[..|order| - 1], alloc);
      var f := order[|order| - 1];
      if f in alloc then rest + [f] else rest
  }

  /** The feed whose actions name the keys is the first one in order of arrival that is allocated. */
  lemma {:induction false} FirstArrived(order: seq<Name>, alloc: map<Name, Topic>, i: nat)
    requires i < |order| && order[i] in alloc && forall j :: 0 <= j < i ==> order[j] !in alloc
    ensures Arrived(order, alloc) != [] && Arrived(order, alloc)[0] == order[i]
  {
    var n := |order| - 1;
    if i < n {
      FirstArrived(order[..n], alloc, i);
    } else {
      NobodyArrived(order[..n], alloc);
    }
  }

  lemma {:induction false} NobodyArrived(order: seq<Name>, alloc: map<Name, Topic>)
    requires forall i :: 0 <= i < |order| ==> order[i] !in alloc
    ensures Arrived(order, alloc) == []
  {
    if order != [] {
      NobodyArrived(order[..|order| - 1], alloc);
    }
  }

  /** Every lookup the allocation makes finds something: the first feed's keys in every action and, if there are any, weights. */
  ghost predicate LooksUp(arrived: seq<Name>, actions: map<Name, Actions>, weights: map<Name, real>)
  {
    && arrived != []
    && (forall f :: f in arrived ==> f in actions)
    && (forall f :: f in arrived ==> actions[arrived[0]].Keys <= actions[f].Keys)
    && (actions[arrived[0]] != map[] ==> forall f :: f in arrived ==> f in weights)
  }

  function Values(arrived: seq<Name>, actions: map<Name, Actions>, key: Key): (vs: seq<real>)
    requires forall f :: f in arrived ==> f in actions && key in actions[f]
    ensures |vs| == |arrived|
  {
    seq(|arrived|, i requires 0 <= i < |arrived| => assert arrived[i] in arrived; actions[arrived[i]][key])
  }

  /** Who asks for how much under a key, in no order. */
  ghost function Requested(arrived: seq<Name>, actions: map<Name, Actions>, key: Key): map<Name, real>
    requires forall f :: f in arrived ==> f in actions && key in actions[f]
  {
    map f | f in arrived :: actions[f][key]
  }

  /** The weights of those who arrived, in no order. */
  ghost function Weighing(arrived: seq<Name>, weights: map<Name, real>): map<Name, real>
    requires forall f :: f in arrived ==> f in weights
  {
    map f | f in arrived :: weights[f]
  }

  function WeightsOf(arrived: seq<Name>, weights: map<Name, real>): (ws: seq<real>)
    requires forall f :: f in arrived ==> f in weights
    ensures |ws| == |arrived|
  {
    seq(|arrived|, i requires 0 <= i < |arrived| => assert arrived[i] in arrived; weights[arrived[i]])
  }

  /** The shares of one action before limits: the sum of what was asked for, split by weight. */
  function Raws(t: Table, arrived: seq<Name>, actions: map<Name, Actions>, key: Key): (xs: seq<real>)
    requires LooksUp(arrived, actions, t.weights) && key in actions[arrived[0]]
    ensures |xs| == |arrived|
  {
    RawShares(Sum(Values(arrived, actions, key)), WeightsOf(arrived, t.weights))
  }

  /** The sum asked for times the weight that arrived. */
  ghost function WeightedSum(t: Table, arrived: seq<Name>, actions: map<Name, Actions>, key: Key): real
    requires LooksUp(arrived, actions, t.weights) && key in actions[arrived[0]]
  {
    SumOf(Requested(arrived, actions, key)) * SumOf(Weighing(arrived, t.weights))
  }

  /** What the allocation of one action ends with; None if its limit loop runs for ever. */
  ghost function Limited(t: Table, arrived: seq<Name>, actions: map<Name, Actions>, key: Key): (e: Option<Outcome>)
    requires LooksUp(arrived, actions, t.weights) && key in actions[arrived[0]]
    ensures e.Some? ==> |e.value.values| == |arrived|
  {
    var xs := Raws(t, arrived, actions, key);
    if key in t.limits then LoopExit(xs, WeightsOf(arrived, t.weights), t.limits[key].0, t.limits[key].1)
    else Some(Balanced(xs))
  }

  /** The loop exits without raising. */
  predicate Exits(e: Option<Outcome>)
  {
    e.Some? && (e.value.Balanced? || e.value.Saturated?)
  }

  ghost predicate AllExit(t: Table, arrived: seq<Name>, actions: map<Name, Actions>)
    requires LooksUp(arrived, actions, t.weights)
  {
    forall key :: key in actions[arrived[0]] ==> Exits(Limited(t, arrived, actions, key))
  }

  /** No weight is negative and no lower limit is above its upper one: it is decided whether every loop exits. */
  ghost predicate Regular(t: Table, arrived: seq<Name>, actions: map<Name, Actions>)
    requires LooksUp(arrived, actions, t.weights)
  {
    forall key :: key in actions[arrived[0]] && key in t.limits ==>
      NonNegative(WeightsOf(arrived, t.weights)) && t.limits[key].0 <= t.limits[key].1
  }

  function IndexOf(fs: seq<Name>, f: Name): (i: nat)
    requires f in fs
    ensures i < |fs| && fs[i] == f
  {
    if fs[0] == f then 0 else 1 + IndexOf(fs[1..], f)
  }

  /** The shares of one feed, one for each action. */
  ghost function SharesFor(t: Table, arrived: seq<Name>, actions: map<Name, Actions>, f: Name): Actions
    requires LooksUp(arrived, actions, t.weights) && AllExit(t, arrived, actions) && f in arrived
  {
    map key | key in actions[arrived[0]] :: Limited(t, arrived, actions, key).value.values[IndexOf(arrived, f)]
  }

  /** One publication for each allocated feed that arrived, in the order of the allocated topics. */
  ghost function Publications(t: Table, arrived: seq<Name>, actions: map<Name, Actions>, order: seq<Name>): seq<Publication>
    requires LooksUp(arrived, actions, t.weights) && AllExit(t, arrived, actions) && (forall f :: f in order ==> f in t.alloc)
  {
    if order == [] then []
    else
      var f := order[|order| - 1];
      var before := Publications(t, arrived, actions, order[..|order| - 1]);
      if f in arrived then before + [ToFeed(f, t.alloc[f], SharesFor(t, arrived, actions, f))] else before
  }

  // ----- what an allocation guarantees -----

  /** An allocation publishes to the topics of feeds that are neither manual nor off, once each feed that arrived. */
  lemma {:induction false} PublishesOnlyToAllocated(t: Table, arrived: seq<Name>, actions: map<Name, Actions>, order: seq<Name>)
    requires Structured(t) && Statuses(t) && LooksUp(arrived, actions, t.weights) && AllExit(t, arrived, actions)
    requires forall f :: f in order ==> f in t.alloc
    ensures forall p :: p in Publications(t, arrived, actions, order) ==>
      && p.to in order && p.to in t.feeds && p.topic == t.topics[p.to]
      && t.feeds[p.to] != Manual && t.feeds[p.to] != Off
    ensures forall f :: f in order && f in arrived ==>
      ToFeed(f, t.alloc[f], SharesFor(t, arrived, actions, f)) in Publications(t, arrived, actions, order)
  {
    if order != [] {
      var rest := order[..|order| - 1];
      var f := order[|order| - 1];
      assert order == rest + [f];
      PublishesOnlyToAllocated(t, arrived, actions, rest);
    }
  }

  /** Whoever is published to is published to once. */
  lemma {:induction false} PublishesOnce(t: Table, arrived: seq<Name>, actions: map<Name, Actions>, order: seq<Name>)
    requires LooksUp(arrived, actions, t.weights) && AllExit(t, arrived, actions) && Distinct(order)
    requires forall f :: f in order ==> f in t.alloc
    ensures var ps := Publications(t, arrived, actions, order);
      && (forall p :: p in ps ==> p.to in order)
      && forall i, j :: 0 <= i < j < |ps| ==> ps[i].to != ps[j].to
  {
    if order != [] {
      var rest, f := order[..|order| - 1], order[|order| - 1];
      DistinctPrefix(order);
      hide LooksUp, AllExit, SharesFor, Distinct;
      PublishesOnce(t, arrived, actions, rest);
      var before, after := Publications(t, arrived, actions, rest), Publications(t, arrived, actions, order);
      assert after == before || (|after| == |before| + 1 && after[..|before|] == before && after[|before|].to == f);
      hide Publications;
      forall i, j | 0 <= i < j < |after| ensures after[i].to != after[j].to {
        assert i < |before| ==> after[i] == before[i] && after[i] in before;
        assert j < |before| ==> after[j] == before[j];
      }
    }
  }

  lemma DistinctPrefix(order: seq<Name>)
    requires Distinct(order) && order != []
    ensures Distinct(order[..|order| - 1]) && order[|order| - 1] !in order[..|order| - 1]
    ensures order == order[..|order| - 1] + [order[|order| - 1]]
  {
  }

  lemma {:induction false} EnumeratedSum(arrived: seq<Name>, weights: map<Name, real>)
    requires Distinct(arrived) && weights.Keys == (set f | f in arrived)
    ensures Sum(WeightsOf(arrived, weights)) == SumOf(weights)
  {
    if arrived == [] {
      assert weights == map[];
    } else {
      hide Distinct, SumOf;
      var n := |arrived| - 1;
      WithoutLast(arrived, weights);
      SumOfRemove(weights, arrived[n]);
      EnumeratedSum(arrived[..n], weights - {arrived[n]});
    }
  }

  /** What the distinct feeds that arrived ask for, added up in order of arrival, is the sum over all of them. */
  lemma RequestedTotal(arrived: seq<Name>, actions: map<Name, Actions>, key: Key)
    requires Distinct(arrived) && forall f :: f in arrived ==> f in actions && key in actions[f]
    ensures Sum(Values(arrived, actions, key)) == SumOf(Requested(arrived, actions, key))
  {
    var m := Requested(arrived, actions, key);
    var vs, us := Values(arrived, actions, key), WeightsOf(arrived, m);
    forall i | 0 <= i < |arrived| ensures vs[i] == us[i] {
      assert arrived[i] in arrived;
    }
    assert vs == us;
    EnumeratedSum(arrived, m);
  }

  lemma WeighingTotal(arrived: seq<Name>, weights: map<Name, real>)
    requires Distinct(arrived) && forall f :: f in arrived ==> f in weights
    ensures Sum(WeightsOf(arrived, weights)) == SumOf(Weighing(arrived, weights))
  {
    var m := Weighing(arrived, weights);
    var vs, us := WeightsOf(arrived, weights), WeightsOf(arrived, m);
    forall i | 0 <= i < |arrived| ensures vs[i] == us[i] {
      assert arrived[i] in arrived;
    }
    assert vs == us;
    EnumeratedSum(arrived, m);
  }

  lemma WithoutLast(arrived: seq<Name>, weights: map<Name, real>)
    requires arrived != [] && Distinct(arrived) && weights.Keys == (set f | f in arrived)
    ensures var n := |arrived| - 1;
      var rest, f := arrived[..n], arrived[n];
      && Distinct(rest) && (weights - {f}).Keys == (set g | g in rest)
      && f in weights && (forall g :: g in rest ==> g in weights - {f})
      && WeightsOf(arrived, weights)[..n] == WeightsOf(rest, weights - {f})
      && WeightsOf(arrived, weights)[n] == weights[f]
  {
  }

  lemma RawPrefix(total: real, ws: seq<real>)
    requires ws != []
    ensures var n := |ws| - 1;
      RawShares(total, ws)[..n] == RawShares(total, ws[..n]) && RawShares(total, ws)[n] == total * ws[n]
  {
    var n := |ws| - 1;
    var xs, ys := RawShares(total, ws)[..n], RawShares(total, ws[..n]);
    assert forall i :: 0 <= i < n ==> ws[..n][i] == ws[i];
    forall i | 0 <= i < n ensures xs[i] == ys[i] {
      var w := ws[i];
      assert xs[i] == total * w;
      assert ys[i] == total * w;
    }
  }

  lemma Distributes(t: real, x: real, y: real)
    ensures t * (x + y) == t * x + t * y
  {
  }

  lemma {:induction false} RawTotal(total: real, ws: seq<real>)
    ensures Sum(RawShares(total, ws)) == total * Sum(ws)
  {
    if ws != [] {
      var n := |ws| - 1;
      RawTotal(total, ws[..n]);
      RawPrefix(total, ws);
      hide RawShares;
      Distributes(total, Sum(ws[..n]), ws[n]);
    }
  }

  /** What is published for one action, feed by feed in order of arrival. */
  ghost function PublishedShares(t: Table, arrived: seq<Name>, actions: map<Name, Actions>, key: Key): (xs: seq<real>)
    requires LooksUp(arrived, actions, t.weights) && AllExit(t, arrived, actions) && key in actions[arrived[0]]
    ensures |xs| == |arrived|
  {
    seq(|arrived|, i requires 0 <= i < |arrived| => assert arrived[i] in arrived; SharesFor(t, arrived, actions, arrived[i])[key])
  }

  lemma {:induction false} IndexOfDistinct(fs: seq<Name>, i: nat)
    requires Distinct(fs) && i < |fs|
    ensures IndexOf(fs, fs[i]) == i
  {
    if i > 0 {
      IndexOfDistinct(fs[1..], i - 1);
    }
  }

  /** Every feed is sent its own share. */
  lemma OwnShares(t: Table, arrived: seq<Name>, actions: map<Name, Actions>, key: Key)
    requires LooksUp(arrived, actions, t.weights) && AllExit(t, arrived, actions)
    requires key in actions[arrived[0]] && Distinct(arrived)
    ensures Limited(t, arrived, actions, key).Some?
    ensures PublishedShares(t, arrived, actions, key) == Limited(t, arrived, actions, key).value.values
  {
    hide Limited, Distinct, LooksUp;
    var xs, ys := PublishedShares(t, arrived, actions, key), Limited(t, arrived, actions, key).value.values;
    forall i | 0 <= i < |arrived| ensures xs[i] == ys[i] {
      IndexOfDistinct(arrived, i);
    }
  }

  /**
   As a condition on what the loop is given: the action is not limited, or its raw shares settle,
   at once or later, and no division raises.
   */
  ghost predicate KeySettles(t: Table, arrived: seq<Name>, actions: map<Name, Actions>, key: Key)
    requires LooksUp(arrived, actions, t.weights) && key in actions[arrived[0]]
  {
    key in t.limits ==>
      var (lo, hi) := t.limits[key];
      var xs, ws := Raws(t, arrived, actions, key), WeightsOf(arrived, t.weights);
      && (Settles(xs, ws, lo, hi) || SettlesLater(xs, ws, lo, hi))
      && !Raises(Sum(Values(arrived, actions, key)), ws, lo, hi)
  }

  ghost predicate AllSettle(t: Table, arrived: seq<Name>, actions: map<Name, Actions>)
    requires LooksUp(arrived, actions, t.weights)
  {
    forall key :: key in actions[arrived[0]] ==> KeySettles(t, arrived, actions, key)
  }

  lemma KeyExits(t: Table, arrived: seq<Name>, actions: map<Name, Actions>, key: Key)
    requires LooksUp(arrived, actions, t.weights) && key in actions[arrived[0]] && Regular(t, arrived, actions)
    ensures Exits(Limited(t, arrived, actions, key)) <==> KeySettles(t, arrived, actions, key)
  {
    if key in t.limits {
      hide Settles, SettlesLater, WeightsOf, LoopExit, Values, Raises, Sum, NonNegative;
      LoopGetsThrough(Sum(Values(arrived, actions, key)), WeightsOf(arrived, t.weights), t.limits[key].0, t.limits[key].1);
    }
  }

  /** The loop exits without raising exactly if the raw shares settle, at once or later, and no division raises. */
  lemma LoopGetsThrough(total: real, ws: seq<real>, lo: real, hi: real)
    requires NonNegative(ws) && lo <= hi
    ensures var xs := RawShares(total, ws);
      Exits(LoopExit(xs, ws, lo, hi)) <==>
        (Settles(xs, ws, lo, hi) || SettlesLater(xs, ws, lo, hi)) && !Raises(total, ws, lo, hi)
  {
    var xs := RawShares(total, ws);
    hide Settles, SettlesLater, LoopExit, Raises, Rounds, NonNegative, RawShares;
    ExitsIffSettlesTwice(xs, ws, lo, hi);
    RaisesIff(total, ws, lo, hi);
    LoopExitExists(xs, ws, lo, hi);
    if k: nat :| !Rounds(xs, ws, lo, hi, k).Looping? {
      ExitIs(xs, ws, lo, hi, k);
    }
    if k: nat :| Rounds(xs, ws, lo, hi, k).ZeroWeights? {
      ExitIs(xs, ws, lo, hi, k);
    }
  }

  /** Without negative weights, an allocation gets through exactly if every limited action settles without raising. */
  lemma GetsThroughIffSettles(t: Table, arrived: seq<Name>, actions: map<Name, Actions>)
    requires LooksUp(arrived, actions, t.weights) && Regular(t, arrived, actions)
    ensures AllExit(t, arrived, actions) <==> AllSettle(t, arrived, actions)
  {
    hide Regular, Limited, KeySettles, Exits;
    forall key | key in actions[arrived[0]]
      ensures Exits(Limited(t, arrived, actions, key)) <==> KeySettles(t, arrived, actions, key)
    {
      KeyExits(t, arrived, actions, key);
    }
  }

  /** What the loop exits with is within the limits and adds up to the total, as far as n times the limits allow. */
  lemma ExitTotal(xs: seq<real>, ws: seq<real>, lo: real, hi: real)
    requires |xs| == |ws| > 0 && lo <= hi && Exits(LoopExit(xs, ws, lo, hi))
    ensures var ys := LoopExit(xs, ws, lo, hi).value.values;
      Within(ys, lo, hi) && Sum(ys) == Clamp(Sum(xs), Times(|xs|, lo), Times(|xs|, hi))
  {
    var o := LoopExit(xs, ws, lo, hi).value;
    var k: nat :| !Rounds(xs, ws, lo, hi, k).Looping? && o == Rounds(xs, ws, lo, hi, k);
    hide Rounds, Round, LoopExit, Sum;
    ExitCharacterisation(xs, ws, lo, hi, k);
    TimesOrdered(|xs|, lo, hi);
    if o.Balanced? {
      WithinIsFeasible(o.values, lo, hi);
    } else {
      SumConstant(o.values, if o.values[0] == hi && Sum(xs) > Times(|xs|, hi) then hi else lo);
    }
  }

  lemma {:induction false} TimesOrdered(n: nat, lo: real, hi: real)
    requires lo <= hi
    ensures Times(n, lo) <= Times(n, hi)
  {
    if n > 0 {
      TimesOrdered(n - 1, lo, hi);
    }
  }

  /**
   Whoever arrived and whatever the weights: an allocation in which every loop exits publishes, for
   every action with ordered limits, shares within the limits that add up to the sum asked for
   times the weight that arrived, as far as the limits of so many feeds allow; and exactly to it
   for an action without limits.
   */
  lemma SharesAddUp(t: Table, arrived: seq<Name>, actions: map<Name, Actions>, key: Key)
    requires LooksUp(arrived, actions, t.weights) && key in actions[arrived[0]] && Distinct(arrived)
    requires AllExit(t, arrived, actions) && (key in t.limits ==> t.limits[key].0 <= t.limits[key].1)
    ensures var shares := PublishedShares(t, arrived, actions, key);
      var total := WeightedSum(t, arrived, actions, key);
      if key in t.limits then
        var (lo, hi) := t.limits[key];
        Within(shares, lo, hi) && Sum(shares) == Clamp(total, Times(|arrived|, lo), Times(|arrived|, hi))
      else Sum(shares) == total
  {
    OwnShares(t, arrived, actions, key);
    assert Exits(Limited(t, arrived, actions, key));
    hide *;
    LimitedTotal(t, arrived, actions, key);
  }

  lemma RawsTotal(t: Table, arrived: seq<Name>, actions: map<Name, Actions>, key: Key)
    requires LooksUp(arrived, actions, t.weights) && key in actions[arrived[0]] && Distinct(arrived)
    ensures Sum(Raws(t, arrived, actions, key)) == WeightedSum(t, arrived, actions, key)
  {
    hide Values, WeightsOf, RawShares, Distinct;
    RequestedTotal(arrived, actions, key);
    WeighingTotal(arrived, t.weights);
    RawTotal(Sum(Values(arrived, actions, key)), WeightsOf(arrived, t.weights));
  }

  lemma LimitedTotal(t: Table, arrived: seq<Name>, actions: map<Name, Actions>, key: Key)
    requires LooksUp(arrived, actions, t.weights) && key in actions[arrived[0]] && Distinct(arrived)
    requires Exits(Limited(t, arrived, actions, key)) && (key in t.limits ==> t.limits[key].0 <= t.limits[key].1)
    ensures var shares := Limited(t, arrived, actions, key).value.values;
      var total := WeightedSum(t, arrived, actions, key);
      if key in t.limits then
        var (lo, hi) := t.limits[key];
        Within(shares, lo, hi) && Sum(shares) == Clamp(total, Times(|arrived|, lo), Times(|arrived|, hi))
      else Sum(shares) == total
  {
    RawsTotal(t, arrived, actions, key);
    hide Raws, Values, WeightsOf, LoopExit, Exits, WeightedSum, Distinct, Clamp, Within, Sum, Times;
    if key in t.limits {
      ExitTotal(Raws(t, arrived, actions, key), WeightsOf(arrived, t.weights), t.limits[key].0, t.limits[key].1);
    }
  }

  /** When every allocated feed has arrived, the shares add up to what the feeds asked for in sum, as far as the limits allow. */
  lemma AllocationConserves(t: Table, arrived: seq<Name>, actions: map<Name, Actions>, key: Key)
    requires WeightsFit(t) && t.alloc != map[]
    requires Distinct(arrived) && (set f | f in arrived) == t.alloc.Keys
    requires LooksUp(arrived, actions, t.weights) && key in actions[arrived[0]]
    requires AllExit(t, arrived, actions) && (key in t.limits ==> t.limits[key].0 <= t.limits[key].1)
    ensures var shares := PublishedShares(t, arrived, actions, key);
      var total := SumOf(Requested(arrived, actions, key));
      if key in t.limits then
        var (lo, hi) := t.limits[key];
        Within(shares, lo, hi) && Sum(shares) == Clamp(total, Times(|t.alloc|, lo), Times(|t.alloc|, hi))
      else Sum(shares) == total
  {
    assert Weighing(arrived, t.weights) == t.weights;
    ArrivedAll(arrived, t.alloc);
    hide PublishedShares, AllExit, Weighing, Requested, LooksUp, Distinct, Statuses;
    SharesAddUp(t, arrived, actions, key);
  }

  /**
   Each feed gets the sum asked for times its own weight, of an action without limits and of one
   whose limits hold all these shares.
   */
  lemma SharedByWeight(t: Table, arrived: seq<Name>, actions: map<Name, Actions>, key: Key, f: Name)
    requires LooksUp(arrived, actions, t.weights) && AllExit(t, arrived, actions) && Distinct(arrived)
    requires key in actions[arrived[0]] && f in arrived
    requires key in t.limits ==> forall g :: g in arrived ==>
      t.limits[key].0 <= ShareOfTotal(arrived, actions, key, t.weights[g]) <= t.limits[key].1
    ensures SharesFor(t, arrived, actions, f)[key] == ShareOfTotal(arrived, actions, key, t.weights[f])
  {
    var xs := Raws(t, arrived, actions, key);
    var i := IndexOf(arrived, f);
    RawsByWeight(t, arrived, actions, key);
    assert LooksUp(arrived, actions, t.weights) && AllExit(t, arrived, actions);
    hide Raws, Requested, WeightsOf, ShareOfTotal, Distinct, LooksUp, Limited, AllExit;
    if key in t.limits {
      forall n | 0 <= n < |xs| ensures t.limits[key].0 <= xs[n] <= t.limits[key].1 {
        assert arrived[n] in arrived;
      }
    }
    UnclampedExit(t, arrived, actions, key);
    assert xs[i] == ShareOfTotal(arrived, actions, key, t.weights[arrived[i]]);
  }

  lemma RawsByWeight(t: Table, arrived: seq<Name>, actions: map<Name, Actions>, key: Key)
    requires LooksUp(arrived, actions, t.weights) && Distinct(arrived) && key in actions[arrived[0]]
    ensures forall i :: 0 <= i < |arrived| ==> arrived[i] in t.weights
    ensures forall i :: 0 <= i < |arrived| ==>
      Raws(t, arrived, actions, key)[i] == ShareOfTotal(arrived, actions, key, t.weights[arrived[i]])
  {
    RequestedTotal(arrived, actions, key);
    hide Requested, Distinct, Values;
    forall i | 0 <= i < |arrived|
      ensures arrived[i] in t.weights
      ensures Raws(t, arrived, actions, key)[i] == ShareOfTotal(arrived, actions, key, t.weights[arrived[i]])
    {
      assert arrived[i] in arrived;
    }
  }

  lemma UnclampedExit(t: Table, arrived: seq<Name>, actions: map<Name, Actions>, key: Key)
    requires LooksUp(arrived, actions, t.weights) && key in actions[arrived[0]]
    requires key in t.limits ==> Within(Raws(t, arrived, actions, key), t.limits[key].0, t.limits[key].1)
    ensures Limited(t, arrived, actions, key) == Some(Balanced(Raws(t, arrived, actions, key)))
  {
    var xs, ws := Raws(t, arrived, actions, key), WeightsOf(arrived, t.weights);
    hide Raws, WeightsOf, LoopExit, Round, Rounds;
    if key in t.limits {
      LastRoundClamps(xs, ws, t.limits[key].0, t.limits[key].1);
      FirstRound(xs, ws, t.limits[key].0, t.limits[key].1);
      ExitIs(xs, ws, t.limits[key].0, t.limits[key].1, 1);
    }
  }

  ghost function ShareOfTotal(arrived: seq<Name>, actions: map<Name, Actions>, key: Key, weight: real): real
    requires forall f :: f in arrived ==> f in actions && key in actions[f]
  {
    SumOf(Requested(arrived, actions, key)) * weight
  }

  lemma {:induction false} ArrivedAll(arrived: seq<Name>, alloc: map<Name, Topic>)
    requires Distinct(arrived) && (set f | f in arrived) == alloc.Keys
    ensures |arrived| == |alloc|
  {
    if arrived == [] {
      assert alloc == map[];
    } else {
      var n := |arrived| - 1;
      var f := arrived[n];
      assert (set g | g in arrived[..n]) == (alloc - {f}).Keys;
      ArrivedAll(arrived[..n], alloc - {f});
      assert |alloc| == |alloc - {f}| + 1;
    }
  }
}
