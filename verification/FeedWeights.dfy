/** The allocation weights over runs: whose weights they are and what they sum to. */
module FeedWeights {
  import opened Sums
  import opened Feeds
  import opened FeedInvariants

  /**
   The weights are those of the allocated feeds and sum to one. While no feed is allocated the
   table keeps the weight 1.0 of the feed that left last, if there was one.
   */
  ghost predicate WeightsFit(t: Table)
  {
    if t.alloc != map[] then t.weights.Keys == t.alloc.Keys && SumOf(t.weights) == 1.0
    else
      && |t.weights| <= 1 && t.weights.Keys <= t.feeds.Keys
      && forall f :: f in t.weights ==> t.weights[f] == 1.0
  }

  ghost predicate AllEqual(m: map<Name, real>)
  {
    forall f, g :: f in m && g in m ==> m[f] == m[g]
  }

  /** What the controller's own updates keep: fitting weights, and equal ones equal. */
  ghost predicate Keeps(t: Table, s: Step, f: Name)
  {
    !s.raised ==>
      && WeightsFit(s.table)
      && (AllEqual(t.weights) && f != NO_FEED ==> AllEqual(s.table.weights))
  }

  // ----- arithmetic -----

  lemma TimesPart(n: nat, x: real)
    requires n > 0
    ensures Times(n, x / n as real) == x
  {
    TimesIsProduct(n, x / n as real);
  }

  lemma {:induction false} SumOfSingle(m: map<Name, real>, f: Name)
    requires m.Keys == {f}
    ensures SumOf(m) == m[f]
  {
  }

  /** Keys with value 0.0 add nothing. */
  lemma {:induction false} SumOfZeros(m: map<Name, real>, m': map<Name, real>)
    requires m.Keys <= m'.Keys
    requires forall f :: f in m' ==> m'[f] == if f in m then m[f] else 0.0
    ensures SumOf(m') == SumOf(m)
    decreases |m'|
  {
    if m' == map[] {
      assert m == map[];
    } else {
      var f :| f in m';
      SumOfRemove(m', f);
      if f in m {
        SumOfRemove(m, f);
        SumOfZeros(m - {f}, m' - {f});
      } else {
        SumOfZeros(m, m' - {f});
      }
    }
  }

  lemma ShiftedSum(m: map<Name, real>)
    requires m != map[]
    ensures SumOf(Shifted(m, (1.0 - SumOf(m)) / |m| as real)) == 1.0
  {
    var c := (1.0 - SumOf(m)) / |m| as real;
    SumOfShift(m, c, Shifted(m, c), m.Keys);
    assert |m.Keys| == |m|;
    TimesPart(|m|, 1.0 - SumOf(m));
  }

  lemma TimesOpposite(n: nat, x: real, y: real)
    requires n > 0 && y == -(x / n as real)
    ensures Times(n, y) == -x
  {
    TimesNegated(n, x / n as real);
    TimesPart(n, x);
  }

  /** Making room for a feed whose weight is 0.0 moves weight, and none is lost. */
  lemma RoomSum(m: map<Name, real>, newest: Name, n: nat)
    requires newest in m && m[newest] == 0.0 && |m| == n > 1
    ensures SumOf(WithRoomFor(m, newest, n)) == SumOf(m)
  {
    var m' := WithRoomFor(m, newest, n);
    var part := EqualPart(n);
    var c := -Contribution(n);
    SumOfRemove(m, newest);
    SumOfRemove(m', newest);
    var keys := m.Keys - {newest};
    assert (m - {newest}).Keys == keys == (m' - {newest}).Keys;
    SumOfShift(m - {newest}, c, m' - {newest}, keys);
    assert |keys| == n - 1;
    TimesOpposite(n - 1, part, c);
  }

  // ----- one weight update -----

  lemma {:induction false} LastMissingIsMissing(order: seq<Name>, alloc: map<Name, Topic>, given: map<Name, real>)
    ensures var r := LastMissing(order, alloc, given);
      r != NO_FEED ==> r in order && r in alloc && r !in given
  {
    if order != [] {
      LastMissingIsMissing(order[..|order| - 1], alloc, given);
    }
  }

  /** Of several allocated feeds without a given weight it is the last one in feed order. */
  lemma {:induction false} LastMissingIsLast(order: seq<Name>, alloc: map<Name, Topic>, given: map<Name, real>, i: nat)
    requires i < |order| && order[i] in alloc && order[i] !in given
    requires forall j :: i < j < |order| ==> order[j] !in alloc || order[j] in given
    ensures LastMissing(order, alloc, given) == order[i]
  {
    if i < |order| - 1 {
      LastMissingIsLast(order[..|order| - 1], alloc, given, i);
    }
  }

  lemma {:induction false} NoneMissing(order: seq<Name>, alloc: map<Name, Topic>, given: map<Name, real>)
    requires alloc.Keys <= given.Keys
    ensures LastMissing(order, alloc, given) == NO_FEED
  {
    if order != [] {
      NoneMissing(order[..|order| - 1], alloc, given);
    }
  }

  lemma {:induction false} OnlyMissing(order: seq<Name>, alloc: map<Name, Topic>, given: map<Name, real>, f: Name)
    requires f in order && f in alloc && f !in given && alloc.Keys <= given.Keys + {f}
    ensures LastMissing(order, alloc, given) == f
  {
    var g := order[|order| - 1];
    if !(g in alloc && g !in given) {
      assert order == order[..|order| - 1] + [g];
      OnlyMissing(order[..|order| - 1], alloc, given, f);
    }
  }

  /** The given weights of the allocated feeds. */
  function Provided(alloc: map<Name, Topic>, given: map<Name, real>): map<Name, real>
  {
    map f | f in alloc && f in given :: given[f]
  }

  lemma AssignedWeights(t: Table, given: map<Name, real>)
    requires t.alloc.Keys <= t.feeds.Keys
    requires t.weights.Keys - t.alloc.Keys <= t.feeds.Keys * given.Keys
    ensures var m := Assigned(t.weights, t.alloc, t.feeds.Keys, given);
      && m.Keys == t.alloc.Keys && |m| == |t.alloc|
      && forall f :: f in t.alloc ==> m[f] == if f in given then given[f] else 0.0
  {
    var m := Assigned(t.weights, t.alloc, t.feeds.Keys, given);
    forall f ensures f in m <==> f in t.alloc {
      if f in t.weights && f !in t.alloc {
        assert f in t.weights.Keys - t.alloc.Keys;
      }
    }
    assert m.Keys == t.alloc.Keys;
    assert |m| == |m.Keys| == |t.alloc.Keys| == |t.alloc|;
  }

  lemma EvenedOut(m: map<Name, real>, n: nat)
    requires m != map[] && |m| == n
    ensures var m' := Evened(m, n);
      m'.Keys == m.Keys && SumOf(m') == 1.0
  {
    ShiftedSum(m);
  }

  lemma MadeRoom(m: map<Name, real>, alloc: map<Name, Topic>, given: map<Name, real>, newest: Name, n: nat)
    requires m.Keys == alloc.Keys && |m| == n > 1 && newest in alloc && newest !in given
    requires forall f :: f in alloc ==> m[f] == if f in given then given[f] else 0.0
    ensures var m' := WithRoomFor(m, newest, n);
      m'.Keys == alloc.Keys && SumOf(m') == SumOf(Provided(alloc, given))
  {
    RoomSum(m, newest, n);
    SumOfZeros(Provided(alloc, given), m);
  }

  /**
   A weight update that is not rejected gives exactly the allocated feeds a weight. They sum to
   one if no allocated feed was left out, and to what was given to allocated feeds otherwise. It
   raises exactly if the only allocated feed was left out.
   */
  lemma WeightsAfterUpdate(t: Table, given: map<Name, real>)
    requires Structured(t) && t.alloc != map[] && SumOf(given) <= 1.0
    requires t.weights.Keys - t.alloc.Keys <= t.feeds.Keys * given.Keys
    ensures var w := NewWeights(t, given);
      var newest := LastMissing(t.order, t.alloc, given);
      && (w.raised <==> newest != NO_FEED && |t.alloc| == 1)
      && (!w.raised ==>
            && w.weights.Keys == t.alloc.Keys
            && SumOf(w.weights) == if newest == NO_FEED then 1.0 else SumOf(Provided(t.alloc, given)))
  {
    var m := Assigned(t.weights, t.alloc, t.feeds.Keys, given);
    var n := |t.alloc|;
    var newest := LastMissing(t.order, t.alloc, given);
    assert t.alloc.Keys <= t.feeds.Keys;
    hide Structured, Assigned, LastMissing, Evened, WithRoomFor, Provided;
    AssignedWeights(t, given);
    if newest == NO_FEED {
      EvenedOut(m, n);
    } else if n != 1 {
      LastMissingIsMissing(t.order, t.alloc, given);
      MadeRoom(m, t.alloc, given, newest, n);
    }
  }

  /** One of n equal parts of x. */
  function PartOf(x: real, n: nat): real
    requires n > 0
  {
    x / n as real
  }

  function GivenOrZero(given: map<Name, real>, f: Name): real
  {
    if f in given then given[f] else 0.0
  }

  /** What f weighs after an accepted update in which newest is the last feed left out. */
  ghost function ExactWeight(alloc: map<Name, Topic>, given: map<Name, real>, newest: Name, f: Name): real
    requires |alloc| > 0 && (newest != NO_FEED ==> |alloc| > 1)
  {
    if newest == NO_FEED then GivenOrZero(given, f) + PartOf(1.0 - SumOf(Provided(alloc, given)), |alloc|)
    else if f == newest then EqualPart(|alloc|)
    else GivenOrZero(given, f) - Contribution(|alloc|)
  }

  /**
   Every weight after an accepted update of n allocated feeds. If all were given weights, what
   these lack to one is added in n equal parts; otherwise the last feed left out weighs 1/n and
   each of the others pays 1/(n(n-1)) for it.
   */
  lemma WeightsExactly(t: Table, given: map<Name, real>, f: Name)
    requires Structured(t) && f in t.alloc && SumOf(given) <= 1.0
    requires t.weights.Keys - t.alloc.Keys <= t.feeds.Keys * given.Keys
    requires !NewWeights(t, given).raised
    ensures var newest := LastMissing(t.order, t.alloc, given);
      && |t.alloc| > 0 && (newest != NO_FEED ==> |t.alloc| > 1)
      && f in NewWeights(t, given).weights
      && NewWeights(t, given).weights[f] == ExactWeight(t.alloc, given, newest, f)
  {
    assert t.alloc.Keys <= t.feeds.Keys && t.alloc.Keys != {} && t.alloc != map[];
    hide *;
    NewWeightsAre(t, given);
    AssignedWeights(t, given);
    WeightsFromAssigned(t.alloc, given, LastMissing(t.order, t.alloc, given), f,
      Assigned(t.weights, t.alloc, t.feeds.Keys, given));
  }

  lemma WeightsFromAssigned(alloc: map<Name, Topic>, given: map<Name, real>, newest: Name, f: Name, m: map<Name, real>)
    requires f in alloc && |alloc| > 0 && (newest != NO_FEED ==> |alloc| > 1)
    requires m.Keys == alloc.Keys && forall g :: g in alloc ==> m[g] == if g in given then given[g] else 0.0
    ensures var w := if newest == NO_FEED then Evened(m, |alloc|) else WithRoomFor(m, newest, |alloc|);
      f in w && w[f] == ExactWeight(alloc, given, newest, f)
  {
    SumOfZeros(Provided(alloc, given), m);
    assert m[f] == GivenOrZero(given, f);
    hide SumOf, Evened, WithRoomFor, PartOf, EqualPart, Contribution, Provided, GivenOrZero;
    if newest == NO_FEED {
      EvenedAt(m, |alloc|, f);
    } else {
      RoomAt(m, newest, |alloc|, f);
    }
  }

  lemma NewWeightsAre(t: Table, given: map<Name, real>)
    requires t.alloc != map[] && SumOf(given) <= 1.0 && !NewWeights(t, given).raised
    ensures var m := Assigned(t.weights, t.alloc, t.feeds.Keys, given);
      var newest := LastMissing(t.order, t.alloc, given);
      && |t.alloc| > 0 && (newest != NO_FEED ==> |t.alloc| > 1)
      && NewWeights(t, given).weights == if newest == NO_FEED then Evened(m, |t.alloc|) else WithRoomFor(m, newest, |t.alloc|)
  {
    hide Assigned, LastMissing, SumOf, Evened, WithRoomFor;
  }

  lemma EvenedAt(m: map<Name, real>, n: nat, f: Name)
    requires f in m && n > 0
    ensures f in Evened(m, n) && Evened(m, n)[f] == m[f] + PartOf(1.0 - SumOf(m), n)
  {
  }

  lemma RoomAt(m: map<Name, real>, newest: Name, n: nat, f: Name)
    requires f in m && n > 1
    ensures var m' := WithRoomFor(m, newest, n);
      f in m' && m'[f] == if f == newest then EqualPart(n) else m[f] - Contribution(n)
  {
    hide EqualPart, Contribution;
  }

  lemma ContributionIs(n: nat)
    requires n > 1
    ensures Contribution(n) == 1.0 / (n * (n - 1)) as real
  {
    var a, b, c := n as real, (n - 1) as real, (n * (n - 1)) as real;
    ProductAsReal(n, n - 1);
    ProductOfInverses(a, b, c, 1.0 / a, 1.0 / a / b);
    InverseIs(c, 1.0 / a / b);
  }

  lemma ProductAsReal(m: nat, n: nat)
    ensures (m * n) as real == m as real * n as real
  {
  }

  lemma ProductOfInverses(a: real, b: real, c: real, p: real, q: real)
    requires p * a == 1.0 && q * b == p && c == a * b
    ensures q * c == 1.0
  {
    assert q * (a * b) == (q * b) * a;
  }

  lemma InverseIs(c: real, q: real)
    requires c != 0.0 && q * c == 1.0
    ensures q == 1.0 / c
  {
    var r := 1.0 / c;
    assert r * c == 1.0;
    assert (q - r) * c == 0.0;
  }

  /** An accepted update that gives every allocated feed a weight keeps the differences between them. */
  lemma DifferencesKept(t: Table, given: map<Name, real>, f: Name, g: Name)
    requires Structured(t) && f in t.alloc && g in t.alloc && t.alloc.Keys <= given.Keys && SumOf(given) <= 1.0
    requires t.weights.Keys - t.alloc.Keys <= t.feeds.Keys * given.Keys
    ensures var w := NewWeights(t, given);
      && !w.raised && f in w.weights && g in w.weights
      && w.weights[f] - w.weights[g] == given[f] - given[g]
  {
    NoneMissing(t.order, t.alloc, given);
    hide Structured, Assigned, LastMissing, Provided, SumOf, PartOf;
    assert !NewWeights(t, given).raised;
    WeightsExactly(t, given, f);
    WeightsExactly(t, given, g);
  }

  // ----- updates the controller makes itself -----

  /** t' is t with f added to its allocated set, or with feeds dropped from it. */
  ghost predicate Reallocated(t: Table, t': Table, f: Name)
  {
    && t'.weights == t.weights
    && t.feeds.Keys <= t'.feeds.Keys
    && t'.alloc.Keys <= t.alloc.Keys + {f}
    && (f in t'.alloc && f !in t.alloc ==> t'.alloc.Keys == t.alloc.Keys + {f})
    && (t'.alloc == map[] ==> |t.alloc| <= 1)
  }

  /** The division by zero: f is the only allocated feed and the weights are not its own. */
  ghost predicate NoRoom(t: Table, t': Table, f: Name)
  {
    t.alloc == map[] && f in t'.alloc && f !in t.weights && f != NO_FEED
  }

  lemma ReallocationFits(t: Table, t': Table, f: Name)
    requires WeightsFit(t) && Structured(t) && Structured(t') && Reallocated(t, t', f)
    ensures var s := UpdateWeights(t', t'.weights);
      && (s.raised <==> NoRoom(t, t', f))
      && Keeps(t, s, f)
  {
    hide NewWeights;
    if t'.alloc == map[] {
      EmptiedFits(t, t', f);
      hide Structured, NoRoom, Reallocated, AllEqual, WeightsFit;
      assert UpdateWeights(t', t'.weights).table == t';
    } else {
      hide Structured, NoRoom, Reallocated, AllEqual;
      NonEmptyFits(t, t', f);
      if !NewWeights(t', t'.weights).raised {
        StaysEqual(t, t', f);
      }
    }
  }

  lemma EmptiedFits(t: Table, t': Table, f: Name)
    requires WeightsFit(t) && Structured(t) && Reallocated(t, t', f) && t'.alloc == map[]
    ensures NewWeights(t', t'.weights) == WeightStep(t.weights, false)
    ensures WeightsFit(t') && !NoRoom(t, t', f)
  {
    assert t.alloc.Keys <= t.feeds.Keys;
    hide Structured;
    if t.alloc != map[] {
      LastOneLeft(t);
    }
  }

  lemma NonEmptyFits(t: Table, t': Table, f: Name)
    requires WeightsFit(t) && Structured(t) && Structured(t') && Reallocated(t, t', f) && t'.alloc != map[]
    ensures var w := NewWeights(t', t'.weights);
      && (w.raised <==> NoRoom(t, t', f))
      && (!w.raised ==> w.weights.Keys == t'.alloc.Keys && SumOf(w.weights) == 1.0)
  {
    StaleSum(t);
    StaleIsDropped(t, t', f);
    MissingAfter(t, t', f);
    hide NewWeights, Structured, LastMissing, Provided, NoRoom;
    WeightsAfterUpdate(t', t'.weights);
  }

  /** Equal weights stay equal when feeds leave and when a feed joins. */
  lemma StaysEqual(t: Table, t': Table, f: Name)
    requires WeightsFit(t) && Structured(t) && Structured(t') && Reallocated(t, t', f) && t'.alloc != map[]
    requires !NewWeights(t', t'.weights).raised
    ensures AllEqual(t.weights) && f != NO_FEED ==> AllEqual(NewWeights(t', t'.weights).weights)
  {
    hide Distinct, SumOf, EqualPart, Contribution;
    StaleSum(t);
    StaleIsDropped(t, t', f);
    if AllEqual(t.weights) && f != NO_FEED {
      if t'.alloc.Keys <= t.weights.Keys {
        NoneMissing(t'.order, t'.alloc, t.weights);
        assert t'.alloc.Keys <= t'.feeds.Keys;
        hide Structured, LastMissing, Evened;
        AssignedWeights(t', t.weights);
        EvenedStaysEqual(Assigned(t'.weights, t'.alloc, t'.feeds.Keys, t.weights), |t'.alloc|);
      } else {
        assert f in t'.order by { assert f in (set g | g in t'.order); }
        OnlyMissing(t'.order, t'.alloc, t.weights, f);
        OneMoreFeed(t, t', f);
        assert t'.alloc.Keys <= t'.feeds.Keys;
        hide Structured, LastMissing, AllEqual, Assigned, WithRoomFor;
        AssignedWeights(t', t.weights);
        JoinsEqual(t, t', f);
      }
    }
  }

  lemma EvenedStaysEqual(m: map<Name, real>, n: nat)
    requires AllEqual(m) && n > 0
    ensures AllEqual(Evened(m, n))
  {
  }

  /** Equal weights that fit the table are 1/n each. */
  lemma EqualIsEven(t: Table)
    requires WeightsFit(t) && AllEqual(t.weights)
    ensures t.alloc != map[] ==> forall f :: f in t.weights ==> t.weights[f] == EqualPart(|t.alloc|)
  {
    if t.alloc != map[] {
      var f :| f in t.alloc;
      EqualSum(t.weights, t.weights[f]);
      assert |t.weights.Keys| == |t.alloc.Keys| == |t.alloc|;
      TimesIsProduct(|t.alloc|, t.weights[f]);
      Inverse(|t.alloc| as real, t.weights[f]);
    }
  }

  lemma EqualSum(m: map<Name, real>, c: real)
    requires forall f :: f in m ==> m[f] == c
    ensures SumOf(m) == Times(|m.Keys|, c)
  {
    var zeros := map f | f in m :: 0.0;
    SumOfZeros(map[], zeros);
    SumOfShift(zeros, c, m, m.Keys);
  }

  lemma Inverse(a: real, c: real)
    requires a != 0.0 && a * c == 1.0
    ensures c == 1.0 / a
  {
  }

  /** 1/(n-1) less the contribution to the n-th feed is 1/n. */
  lemma EqualShares(n: nat)
    requires n > 1
    ensures EqualPart(n - 1) - Contribution(n) == EqualPart(n)
  {
  }

  lemma JoinsEqual(t: Table, t': Table, f: Name)
    requires WeightsFit(t) && Reallocated(t, t', f) && f in t'.alloc && f !in t.weights && AllEqual(t.weights)
    requires t.alloc != map[] && |t'.alloc| > 1
    requires Assigned(t'.weights, t'.alloc, t'.feeds.Keys, t'.weights).Keys == t'.alloc.Keys <= t'.feeds.Keys
    ensures AllEqual(WithRoomFor(Assigned(t'.weights, t'.alloc, t'.feeds.Keys, t'.weights), f, |t'.alloc|))
  {
    EqualIsEven(t);
    assert |t'.alloc| == |t'.alloc.Keys| == |t.alloc.Keys| + 1;
    EqualShares(|t'.alloc|);
    hide EqualPart, Contribution, AllEqual;
    var m := WithRoomFor(Assigned(t'.weights, t'.alloc, t'.feeds.Keys, t'.weights), f, |t'.alloc|);
    assert forall g :: g in m ==> m[g] == EqualPart(|t'.alloc|);
    AllEqualTo(m, EqualPart(|t'.alloc|));
  }

  lemma AllEqualTo(m: map<Name, real>, c: real)
    requires forall g :: g in m ==> m[g] == c
    ensures AllEqual(m)
  {
  }

  /** Only a feed added to the allocated set can be without a weight. */
  lemma MissingAfter(t: Table, t': Table, f: Name)
    requires WeightsFit(t) && Structured(t) && Structured(t') && Reallocated(t, t', f) && t'.alloc != map[]
    ensures var newest := LastMissing(t'.order, t'.alloc, t.weights);
      && (newest != NO_FEED && |t'.alloc| == 1 <==> NoRoom(t, t', f))
      && (newest != NO_FEED && |t'.alloc| != 1 ==> SumOf(Provided(t'.alloc, t.weights)) == 1.0)
  {
    if t'.alloc.Keys <= t.weights.Keys {
      NoneMissing(t'.order, t'.alloc, t.weights);
    } else {
      assert f in t'.alloc && f !in t.weights;
      assert f in t'.order by { assert f in (set g | g in t'.order); }
      OnlyMissing(t'.order, t'.alloc, t.weights, f);
      OneMoreFeed(t, t', f);
    }
  }

  lemma StaleSum(t: Table)
    requires WeightsFit(t)
    ensures SumOf(t.weights) <= 1.0
  {
    if t.alloc == map[] && t.weights != map[] {
      var f :| f in t.weights;
      AtMostOneKey(t.weights, f);
      SumOfSingle(t.weights, f);
    }
  }

  lemma LastOneLeft(t: Table)
    requires WeightsFit(t) && t.alloc != map[] && |t.alloc| <= 1
    ensures |t.weights| == 1 && forall f :: f in t.weights ==> t.weights[f] == 1.0
  {
    var f :| f in t.alloc;
    AtMostOneKey(t.alloc, f);
    SumOfSingle(t.weights, f);
    assert |t.weights| == |t.weights.Keys| == |{f}|;
  }

  lemma StaleIsDropped(t: Table, t': Table, f: Name)
    requires WeightsFit(t) && Structured(t) && Reallocated(t, t', f)
    ensures t.weights.Keys - t'.alloc.Keys <= t'.feeds.Keys * t.weights.Keys
  {
  }

  lemma OneMoreFeed(t: Table, t': Table, f: Name)
    requires WeightsFit(t) && Reallocated(t, t', f) && f in t'.alloc && f !in t.weights
    ensures |t'.alloc| == 1 <==> t.alloc == map[]
    ensures t.alloc != map[] ==> SumOf(Provided(t'.alloc, t.weights)) == 1.0
  {
    if t.alloc != map[] {
      assert Provided(t'.alloc, t.weights) == t.weights;
      if |t'.alloc| == 1 {
        AtMostOneKey(t'.alloc, f);
      }
    } else {
      assert t'.alloc.Keys == {f};
      assert |t'.alloc| == |t'.alloc.Keys|;
    }
  }
}
