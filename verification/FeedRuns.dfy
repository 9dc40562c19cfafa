/** Allocation weights over whole runs of controller commands. */
module FeedRuns {
  import opened Options
  import opened Sums
  import opened Feeds
  import opened FeedInvariants
  import opened FeedWeights

  ghost predicate Sound(t: Table)
  {
    Structured(t) && Statuses(t) && WeightsFit(t)
  }

  // ----- one action -----

  /** No feed is allocated, and the weights left are not those of the feed to be allocated. */
  ghost predicate Unweighted(t: Table, name: Name)
  {
    t.alloc == map[] && name !in t.weights && name != NO_FEED
  }

  /** The action ends in an exception. */
  ghost predicate Raises(t: Table, name: Name, action: Action)
    requires name in t.feeds || action.TurnOn?
  {
    match action
    case TurnOn(topic) => (name !in t.feeds && topic.None?) || Unweighted(t, name)
    case Manually(flag) => !flag && Unweighted(t, name)
    case Alloc(flag) => flag && t.feeds[name] == Independent && Unweighted(t, name)
    case MaxBitrate(_) => BITRATE in t.limits && BITRATE !in t.initLimits
    case _ => false
  }

  lemma NewFeedShape(t: Table, name: Name, topic: Topic)
    requires Structured(t) && name !in t.feeds
    ensures var t' := WithNewFeed(t, name, topic);
      Structured(t') && Reallocated(t, t', name) && name in t'.alloc
  {
  }

  lemma AllocatedShape(t: Table, name: Name)
    requires Structured(t) && name in t.feeds
    ensures var t' := WithAllocated(t, name);
      Structured(t') && Reallocated(t, t', name) && name in t'.alloc
  {
  }

  lemma UnchangedShape(t: Table, name: Name)
    requires Structured(t) && Statuses(t) && name in t.feeds && t.feeds[name] == Allocated
    ensures Reallocated(t, t, name) && name in t.alloc
  {
  }

  lemma AddFeedFits(t: Table, name: Name, topic: Option<Topic>)
    requires Sound(t)
    ensures var s := AddFeed(t, name, topic);
      && (s.raised <==> (name !in t.feeds && topic.None?) || Unweighted(t, name))
      && Keeps(t, s, name)
  {
    if name !in t.feeds {
      AddNewFeedFits(t, name, topic);
    } else {
      AddKnownFeedFits(t, name, topic);
    }
  }

  lemma RaisedKeeps(t: Table, s: Step, name: Name)
    requires s.raised
    ensures Keeps(t, s, name)
  {
  }

  lemma AddNewFeedFits(t: Table, name: Name, topic: Option<Topic>)
    requires Sound(t) && name !in t.feeds
    ensures var s := AddFeed(t, name, topic);
      && (s.raised <==> topic.None? || Unweighted(t, name))
      && Keeps(t, s, name)
  {
    hide UpdateWeights, Structured, Statuses, WeightsFit, WithNewFeed, Unweighted, Reallocated, Keeps;
    if topic.None? {
      RaisedKeeps(t, AddFeed(t, name, topic), name);
    } else {
      NewFeedShape(t, name, topic.value);
      FitUses(t, WithNewFeed(t, name, topic.value), name);
    }
  }

  lemma AddKnownFeedFits(t: Table, name: Name, topic: Option<Topic>)
    requires Sound(t) && name in t.feeds
    ensures var s := AddFeed(t, name, topic);
      && (s.raised <==> Unweighted(t, name))
      && Keeps(t, s, name)
  {
    AllocatedShape(t, name);
    assert t.topics.Keys == t.feeds.Keys;
    hide UpdateWeights, Structured, Statuses, WeightsFit, WithAllocated, Unweighted, Reallocated, Keeps;
    if t.feeds[name] == Allocated {
      UnchangedShape(t, name);
      FitUses(t, t, name);
    } else {
      FitUses(t, WithAllocated(t, name), name);
    }
  }

  /** The controller's own update after f was added or feeds were dropped. */
  lemma FitUses(t: Table, t': Table, f: Name)
    requires Sound(t) && Structured(t') && Reallocated(t, t', f) && f in t'.alloc
    ensures var s := UpdateWeights(t', t'.weights);
      && (s.raised <==> Unweighted(t, f))
      && Keeps(t, s, f)
  {
    hide UpdateWeights, Structured, Statuses, WeightsFit, Reallocated, Keeps;
    ReallocationFits(t, t', f);
  }

  lemma RemovedShape(t: Table, name: Name, state: FeedState)
    requires Structured(t) && name in t.feeds
    ensures var t' := t.(feeds := t.feeds[name := state], alloc := t.alloc - {name});
      Structured(t') && Reallocated(t, t', name) && !NoRoom(t, t', name)
  {
    RemovedStructured(t, name, state);
    hide Structured;
    EmptyAfterRemoval(t.alloc, name);
  }

  lemma RemovedStructured(t: Table, name: Name, state: FeedState)
    requires Structured(t) && name in t.feeds
    ensures t.feeds[name := state].Keys == t.feeds.Keys
    ensures Structured(t.(feeds := t.feeds[name := state], alloc := t.alloc - {name}))
  {
    hide Distinct;
  }

  lemma EmptyAfterRemoval(alloc: map<Name, Topic>, name: Name)
    ensures alloc - {name} == map[] ==> |alloc| <= 1
  {
    if alloc - {name} == map[] {
      assert (alloc - {name}).Keys == alloc.Keys - {name} == {};
      assert alloc.Keys <= {name};
      CardinalityMonotone(alloc.Keys, {name});
      assert |alloc| == |alloc.Keys|;
    }
  }

  lemma RemoveFeedFits(t: Table, name: Name, state: FeedState)
    requires Sound(t) && name in t.feeds
    ensures var s := RemoveFeed(t, name, state);
      !s.raised && Keeps(t, s, name)
  {
    hide UpdateWeights, Structured, Statuses, WeightsFit, Reallocated, NoRoom, Keeps;
    RemovedShape(t, name, state);
    ReallocationFits(t, t.(feeds := t.feeds[name := state], alloc := t.alloc - {name}), name);
  }

  lemma IndependentShape(t: Table, name: Name)
    requires Structured(t) && name in t.feeds
    ensures Reallocated(t, WithIndependent(t, name), name) && !NoRoom(t, WithIndependent(t, name), name)
  {
    hide Structured;
    EmptyAfterRemoval(t.alloc, name);
  }

  lemma AllocFits(t: Table, name: Name, flag: bool)
    requires Sound(t) && name in t.feeds
    ensures var s := Apply(t, name, Alloc(flag));
      && (s.raised <==> Raises(t, name, Alloc(flag)))
      && Keeps(t, s, name)
  {
    hide ChangeAllocStatus, Structured, Statuses, Unweighted, AllEqual;
    if t.feeds[name] == (if flag then Independent else Allocated) {
      hide Keeps;
      ChangeFits(t, name, flag);
    }
  }

  lemma ChangeFits(t: Table, name: Name, isAlloc: bool)
    requires Sound(t) && name in t.feeds
    ensures var s := ChangeAllocStatus(t, name, isAlloc);
      && (s.raised <==> isAlloc && Unweighted(t, name))
      && Keeps(t, s, name)
  {
    assert t.topics.Keys == t.feeds.Keys;
    hide UpdateWeights, Structured, Statuses, WeightsFit, WithIndependent, WithAllocated, Reallocated, NoRoom, Unweighted, Keeps;
    if isAlloc {
      AllocatedShape(t, name);
      FitUses(t, WithAllocated(t, name), name);
    } else {
      WithIndependentStructured(t, name);
      IndependentShape(t, name);
      ReallocationFits(t, WithIndependent(t, name), name);
    }
  }

  /** Every action for a feed keeps the weights fitting and equal weights equal, and raises exactly in the cases listed. */
  lemma ApplyFits(t: Table, name: Name, action: Action)
    requires Sound(t) && (name in t.feeds || action.TurnOn?)
    ensures var s := Apply(t, name, action);
      && (s.raised <==> Raises(t, name, action))
      && Keeps(t, s, name)
      && (!s.raised ==> Sound(s.table))
  {
    ApplyStructured(t, name, action);
    ApplyKeepsStatuses(t, name, action);
    ApplyKeeps(t, name, action);
  }

  lemma ApplyKeeps(t: Table, name: Name, action: Action)
    requires Sound(t) && (name in t.feeds || action.TurnOn?)
    ensures var s := Apply(t, name, action);
      && (s.raised <==> Raises(t, name, action))
      && Keeps(t, s, name)
  {
    hide AddFeed, RemoveFeed, Structured, Statuses, Unweighted, Keeps;
    match action
    case Alloc(flag) => AllocFits(t, name, flag);
    case TurnOn(topic) => AddFeedFits(t, name, topic);
    case Manually(flag) => if flag { RemoveFeedFits(t, name, Manual); } else { AddFeedFits(t, name, None); }
    case TurnOff(flag) => TurnOffFits(t, name, flag);
    case _ => OthersFit(t, name, action);
  }

  lemma TurnOffFits(t: Table, name: Name, flag: bool)
    requires Sound(t) && name in t.feeds
    ensures var s := Apply(t, name, TurnOff(flag)); !s.raised && Keeps(t, s, name)
  {
    TurnOffIs(t, name, flag);
    assert name in WithOffNotice(t, name, flag).feeds;
    hide *;
    NoticeIsSound(t, name, flag);
    RemoveFeedFits(WithOffNotice(t, name, flag), name, Off);
    KeepsWithNotice(t, name, flag, Apply(t, name, TurnOff(flag)));
  }

  lemma KeepsWithNotice(t: Table, name: Name, flag: bool, s: Step)
    requires name in t.topics && Keeps(WithOffNotice(t, name, flag), s, name)
    ensures Keeps(t, s, name)
  {
  }

  lemma OthersFit(t: Table, name: Name, action: Action)
    requires Sound(t) && name in t.feeds && (action.Relay? || action.MaxBitrate? || action.UnknownAction?)
    ensures var s := Apply(t, name, action); (s.raised <==> Raises(t, name, action)) && Keeps(t, s, name)
  {
    hide Statuses, Distinct, AllEqual;
  }

  lemma NoticeIsSound(t: Table, name: Name, flag: bool)
    requires Sound(t) && name in t.topics
    ensures Sound(WithOffNotice(t, name, flag))
    ensures name in WithOffNotice(t, name, flag).feeds
  {
  }

  // ----- user weights -----

  /** Rejected or ignored, or none of the allocated feeds left out, or adding up to one on the allocated feeds. */
  ghost predicate WellGiven(t: Table, given: map<Name, real>)
  {
    || t.alloc == map[]
    || SumOf(given) > 1.0
    || LastMissing(t.order, t.alloc, given) == NO_FEED
    || (|t.alloc| > 1 && SumOf(Provided(t.alloc, given)) == 1.0)
  }

  lemma CompleteIsWellGiven(t: Table, given: map<Name, real>)
    requires t.alloc.Keys <= given.Keys
    ensures WellGiven(t, given)
  {
    NoneMissing(t.order, t.alloc, given);
  }

  /** User weights leave the weights fitting the allocated feeds if and only if they are well given. */
  lemma UserWeightsFit(t: Table, given: map<Name, real>)
    requires Sound(t)
    ensures var s := UpdateWeights(t, given);
      !s.raised && WeightsFit(s.table) <==> WellGiven(t, given)
  {
    if t.alloc != map[] && SumOf(given) <= 1.0 {
      hide Structured, Statuses, LastMissing, Provided, NewWeights;
      WeightsAfterUpdate(t, given);
    }
  }

  lemma UserWeightsSound(t: Table, given: map<Name, real>)
    requires Sound(t) && WellGiven(t, given)
    ensures var s := UpdateWeights(t, given);
      !s.raised && Sound(s.table)
  {
    UserWeightsFit(t, given);
    UpdateWeightsStructured(t, given);
    hide Structured, WellGiven, NewWeights, StatusesOf;
  }

  // ----- runs -----

  /** Every user weight dictionary in the run is well given when it is processed. */
  ghost predicate WellGivenAll(t: Table, generals: seq<General>)
    decreases generals
  {
    generals != [] ==>
      && (generals[0].Weights? ==> WellGiven(t, generals[0].given))
      && (!ApplyGeneral(t, generals[0]).raised ==> WellGivenAll(ApplyGeneral(t, generals[0]).table, generals[1..]))
  }

  ghost predicate WellGivenRun(t: Table, commands: seq<Command>)
    requires Structured(t)
    decreases commands
  {
    commands != [] ==>
      && (commands[0].ForAll? ==> WellGivenAll(t, commands[0].generals))
      && var s := Execute(t, commands[0]);
         ExecuteStructured(t, commands[0]);
         !s.raised ==> WellGivenRun(s.table, commands[1..])
  }

  lemma {:induction false} ApplyAllFits(t: Table, name: Name, actions: seq<Action>)
    requires Sound(t)
    ensures var s := ApplyAll(t, name, actions); !s.raised ==> Sound(s.table)
    decreases actions
  {
    if !(actions == [] || (name !in t.feeds && !actions[0].TurnOn?)) {
      ApplyFits(t, name, actions[0]);
      var s := Apply(t, name, actions[0]);
      hide Apply, Statuses, WeightsFit, Distinct;
      if !s.raised { ApplyAllFits(s.table, name, actions[1..]); }
    }
  }

  lemma LimitsAreSound(t: Table, general: General)
    requires Sound(t) && !general.Weights?
    ensures var s := ApplyGeneral(t, general); !s.raised && Sound(s.table)
  {
    hide Distinct, StatusesOf, SumOf, UpdateWeights;
  }

  lemma {:induction false} ApplyGeneralsFits(t: Table, generals: seq<General>)
    requires Sound(t) && WellGivenAll(t, generals)
    ensures var s := ApplyGenerals(t, generals); !s.raised && Sound(s.table)
    decreases generals
  {
    if generals != [] {
      var s := ApplyGeneral(t, generals[0]);
      hide NewWeights, WellGiven, Sound, UpdateWeights;
      if generals[0].Weights? {
        UserWeightsSound(t, generals[0].given);
      } else {
        LimitsAreSound(t, generals[0]);
      }
      hide ApplyGeneral;
      ApplyGeneralsFits(s.table, generals[1..]);
    }
  }

  /**
   Every run of on, off, manual, alloc and well-given weight commands that has not raised leaves
   weights exactly for the allocated feeds, and they sum to one.
   */
  lemma {:induction false} RunKeepsWeights(t: Table, commands: seq<Command>)
    requires Sound(t) && WellGivenRun(t, commands)
    ensures var s := Run(t, commands); !s.raised ==> Sound(s.table)
    decreases commands
  {
    if commands != [] {
      var s := Execute(t, commands[0]);
      match commands[0] {
        case ForFeed(name, actions) => ApplyAllFits(t, name, actions);
        case ForAll(generals) => ApplyGeneralsFits(t, generals);
      }
      hide Statuses, WeightsFit, Distinct, Execute;
      if !s.raised { RunKeepsWeights(s.table, commands[1..]); }
    }
  }

  // ----- signs and equality of the weights -----

  ghost predicate AllAtLeast(m: map<Name, real>, least: real)
  {
    forall f :: f in m ==> m[f] >= least
  }

  lemma ContributionIsQuotient(n: nat)
    requires n > 1
    ensures Contribution(n) == 1.0 / (n * (n - 1)) as real > 0.0
    ensures EqualPart(n) == 1.0 / n as real > 0.0
  {
    ContributionIs(n);
  }

  /** name joined: it weighs 1/n and every other weight fell by the same contribution. */
  ghost predicate Joined(before: map<Name, real>, after: map<Name, real>, name: Name, n: nat)
    requires n > 1
  {
    && after.Keys == before.Keys + {name}
    && after[name] == EqualPart(n)
    && forall f :: f in before ==> after[f] == before[f] - Contribution(n)
  }

  /** name is not allocated yet: a feed never seen before, or a known one that is off, manual or independent. */
  ghost predicate CanJoin(t: Table, name: Name, topic: Option<Topic>)
  {
    Sound(t) && name !in t.alloc && name != NO_FEED && t.alloc != map[] && (name in t.feeds || topic.Some?)
  }

  lemma NthFeedWeights(t: Table, name: Name, topic: Option<Topic>, n: nat)
    requires CanJoin(t, name, topic) && n == |t.alloc| + 1
    ensures n > 1
    ensures var s := AddFeed(t, name, topic);
      !s.raised && Joined(t.weights, s.table.weights, name, n)
  {
    assert t.alloc.Keys != {};
    assert Structured(t);
    hide AddFeed, Structured, Sound, Joined;
    if name in t.feeds {
      KnownFeedJoins(t, name, topic, n);
    } else {
      NewFeedJoins(t, name, topic.value, n);
    }
  }

  lemma KnownFeedJoins(t: Table, name: Name, topic: Option<Topic>, n: nat)
    requires Sound(t) && name in t.feeds && name !in t.alloc && name != NO_FEED && t.alloc != map[] && n == |t.alloc| + 1 > 1
    ensures var s := AddFeed(t, name, topic);
      !s.raised && Joined(t.weights, s.table.weights, name, n)
  {
    RejoiningFeed(t, name);
    hide Structured, Sound, Statuses, NewWeights, Joined, WithAllocated;
    NewestWeights(t, WithAllocated(t, name), name, n);
  }

  lemma NewFeedJoins(t: Table, name: Name, topic: Topic, n: nat)
    requires Sound(t) && name !in t.feeds && name !in t.alloc && name != NO_FEED && t.alloc != map[] && n == |t.alloc| + 1 > 1
    ensures var s := AddFeed(t, name, Some(topic));
      !s.raised && Joined(t.weights, s.table.weights, name, n)
  {
    NewFeedStructured(t, name, topic);
    hide Structured, Sound, Statuses, WeightsFit, NewWeights, Joined;
    NewestWeights(t, WithNewFeed(t, name, topic), name, n);
  }

  lemma RejoiningFeed(t: Table, name: Name)
    requires Sound(t) && name in t.feeds && name !in t.alloc
    ensures t.feeds[name] != Allocated && name in t.topics
    ensures var t' := WithAllocated(t, name);
      Structured(t') && t'.weights == t.weights && t'.alloc.Keys == t.alloc.Keys + {name}
  {
    NotAllocatedIfOutside(t, name);
    assert t.topics.Keys == t.feeds.Keys;
    AllocatedShape(t, name);
    hide Structured, Statuses, WeightsFit;
  }

  lemma NotAllocatedIfOutside(t: Table, name: Name)
    requires Statuses(t) && name in t.feeds && name !in t.alloc
    ensures t.feeds[name] != Allocated
  {
  }

  /** An independent feed that is taken back joins like any other. */
  lemma TakenBackWeights(t: Table, name: Name, n: nat)
    requires CanJoin(t, name, None) && n == |t.alloc| + 1
    ensures n > 1
    ensures var s := ChangeAllocStatus(t, name, true);
      !s.raised && Joined(t.weights, s.table.weights, name, n)
  {
    assert t.alloc.Keys != {};
    RejoiningFeed(t, name);
    hide Structured, Sound, Statuses, NewWeights, Joined, WithAllocated;
    NewestWeights(t, WithAllocated(t, name), name, n);
  }

  /** The actions by which a feed leaves the allocated set. */
  predicate Leaves(action: Action)
  {
    action == Alloc(false) || action == Manually(true) || action.TurnOff?
  }

  /** When a feed leaves, the others share its weight in equal parts. */
  lemma LeavingShares(t: Table, name: Name, action: Action, f: Name)
    requires Sound(t) && Leaves(action) && name in t.alloc && f in t.alloc && f != name
    requires action == Alloc(false) ==> t.feeds[name] == Allocated
    ensures var s := Apply(t, name, action);
      && !s.raised && s.table.alloc.Keys == t.alloc.Keys - {name}
      && f in s.table.weights && name !in s.table.weights && |t.alloc| > 1
      && s.table.weights[f] == t.weights[f] + PartOf(t.weights[name], |t.alloc| - 1)
  {
    TwoKeys(t.alloc, name, f);
    LeavesTo(t, name, action);
    var t' := Left(t, name, action);
    hide Apply, Left, Structured, Sound, Statuses, Leaves;
    LeftWeights(t, t', name, f);
  }

  lemma TwoKeys(alloc: map<Name, Topic>, f: Name, g: Name)
    requires f in alloc && g in alloc && f != g
    ensures |alloc| > 1
  {
    assert {f, g} <= alloc.Keys;
    CardinalityMonotone({f, g}, alloc.Keys);
  }

  /** The table a leaving feed leaves before the weights are updated. */
  function Left(t: Table, name: Name, action: Action): Table
    requires name in t.topics
  {
    match action
    case TurnOff(flag) => WithOffNotice(t, name, flag).(feeds := t.feeds[name := Off], alloc := t.alloc - {name})
    case Manually(flag) => t.(feeds := t.feeds[name := Manual], alloc := t.alloc - {name})
    case _ => t.(feeds := t.feeds[name := Independent], alloc := t.alloc - {name})
  }

  lemma LeavesTo(t: Table, name: Name, action: Action)
    requires Sound(t) && Leaves(action) && name in t.alloc && |t.alloc| > 1
    requires action == Alloc(false) ==> t.feeds[name] == Allocated
    ensures name in t.topics && Structured(Left(t, name, action))
    ensures Left(t, name, action).alloc == t.alloc - {name} && Left(t, name, action).weights == t.weights
    ensures Left(t, name, action).feeds.Keys == t.feeds.Keys
    ensures Left(t, name, action).order == t.order
    ensures Apply(t, name, action) == UpdateWeights(Left(t, name, action), t.weights)
  {
    assert name in t.feeds && name in t.topics;
    hide *;
    LeftStructured(t, name, action);
    LeftFields(t, name, action);
    LeavingIsLeft(t, name, action);
  }

  lemma LeftStructured(t: Table, name: Name, action: Action)
    requires Sound(t) && Leaves(action) && name in t.feeds && name in t.topics
    ensures Structured(Left(t, name, action)) && Left(t, name, action).feeds.Keys == t.feeds.Keys
  {
    hide Distinct, StatusesOf, WeightsFit;
    match action
    case TurnOff(flag) =>
      NoticeIsSound(t, name, flag);
      RemovedStructured(WithOffNotice(t, name, flag), name, Off);
    case Manually(_) => RemovedStructured(t, name, Manual);
    case Alloc(_) => RemovedStructured(t, name, Independent);
  }

  lemma LeftFields(t: Table, name: Name, action: Action)
    requires name in t.topics
    ensures var t' := Left(t, name, action);
      t'.alloc == t.alloc - {name} && t'.weights == t.weights && t'.order == t.order
  {
  }

  lemma LeavingIsLeft(t: Table, name: Name, action: Action)
    requires Structured(t) && Leaves(action) && name in t.alloc && name in t.feeds && name in t.topics && |t.alloc| > 1
    requires action == Alloc(false) ==> t.feeds[name] == Allocated
    ensures Apply(t, name, action) == UpdateWeights(Left(t, name, action), t.weights)
  {
    hide Structured, UpdateWeights;
  }

  lemma LeftWeights(t: Table, t': Table, name: Name, f: Name)
    requires Sound(t) && name in t.alloc && f in t.alloc && f != name && |t.alloc| > 1
    requires Structured(t') && t'.alloc == t.alloc - {name} && t'.weights == t.weights && t'.feeds.Keys == t.feeds.Keys
    ensures var w := NewWeights(t', t.weights);
      && !w.raised && f in w.weights && name !in w.weights
      && w.weights[f] == t.weights[f] + PartOf(t.weights[name], |t.alloc| - 1)
  {
    LeftReady(t, t', name, f);
    hide *;
    LeftProvides(t, t', name);
    WeightsAfterUpdate(t', t.weights);
    WeightsExactly(t', t.weights, f);
    LeftWeight(t.weights, t'.alloc, name, f, |t.alloc| - 1);
  }

  lemma LeftReady(t: Table, t': Table, name: Name, f: Name)
    requires Sound(t) && name in t.alloc && f in t.alloc && f != name
    requires t'.alloc == t.alloc - {name} && t'.weights == t.weights && t'.feeds.Keys == t.feeds.Keys
    ensures t.weights.Keys == t.alloc.Keys && SumOf(t.weights) == 1.0 && f in t.weights && name in t.weights
    ensures f in t'.alloc && t'.alloc != map[] && name !in t'.alloc
    ensures t'.weights.Keys - t'.alloc.Keys <= t'.feeds.Keys * t.weights.Keys
  {
    hide SumOf, Distinct, StatusesOf;
    assert t.alloc.Keys <= t.feeds.Keys;
  }

  lemma LeftWeight(weights: map<Name, real>, alloc: map<Name, Topic>, name: Name, f: Name, n: nat)
    requires n > 0 && |alloc| == n && f in weights && name in weights
    requires SumOf(Provided(alloc, weights)) == 1.0 - weights[name]
    ensures ExactWeight(alloc, weights, NO_FEED, f) == weights[f] + PartOf(weights[name], n)
  {
    hide SumOf, Provided, PartOf;
  }

  lemma LeftProvides(t: Table, t': Table, name: Name)
    requires t.weights.Keys == t.alloc.Keys && name in t.alloc && SumOf(t.weights) == 1.0 && t'.alloc == t.alloc - {name}
    ensures |t'.alloc| == |t.alloc| - 1
    ensures LastMissing(t'.order, t'.alloc, t.weights) == NO_FEED
    ensures SumOf(Provided(t'.alloc, t.weights)) == 1.0 - t.weights[name]
  {
    NoneMissing(t'.order, t'.alloc, t.weights);
    assert Provided(t'.alloc, t.weights) == t.weights - {name};
    SumOfRemove(t.weights, name);
    assert t'.alloc.Keys == t.alloc.Keys - {name};
    assert |t'.alloc| == |t'.alloc.Keys| && |t.alloc| == |t.alloc.Keys|;
  }

  lemma NewestIsMissing(t: Table, t': Table, name: Name, n: nat)
    requires Sound(t) && Structured(t') && name !in t.alloc && t.alloc != map[]
    requires t'.weights == t.weights && t'.alloc.Keys == t.alloc.Keys + {name} && n == |t.alloc| + 1
    ensures t.weights.Keys == t.alloc.Keys && name !in t.weights && t'.alloc.Keys <= t'.feeds.Keys
    ensures LastMissing(t'.order, t'.alloc, t.weights) == name
    ensures SumOf(t.weights) == 1.0 && |t'.alloc| == n
  {
    assert t.alloc.Keys <= t.feeds.Keys;
    assert t'.alloc.Keys <= t'.feeds.Keys;
    assert name in t'.order by { assert name in (set g | g in t'.order); }
    hide Structured, Statuses;
    OnlyMissing(t'.order, t'.alloc, t.weights, name);
    assert |t'.alloc| == |t'.alloc.Keys| == |t.alloc.Keys| + 1;
  }

  lemma NewestWeights(t: Table, t': Table, name: Name, n: nat)
    requires Sound(t) && Structured(t') && name !in t.alloc && name != NO_FEED && t.alloc != map[]
    requires t'.weights == t.weights && t'.alloc.Keys == t.alloc.Keys + {name} && n == |t.alloc| + 1 > 1
    ensures var w := NewWeights(t', t'.weights);
      !w.raised && Joined(t.weights, w.weights, name, n)
  {
    hide Sound, Structured, EqualPart, Contribution, LastMissing, Assigned, WithRoomFor, Joined, Evened;
    NewestIsMissing(t, t', name, n);
    JoinedAfter(t, t', name, n);
  }

  lemma JoinedAfter(t: Table, t': Table, name: Name, n: nat)
    requires t'.weights == t.weights && t.weights.Keys == t.alloc.Keys && name !in t.weights && n > 1
    requires t'.alloc.Keys == t.alloc.Keys + {name} <= t'.feeds.Keys
    ensures Joined(t.weights, WithRoomFor(Assigned(t'.weights, t'.alloc, t'.feeds.Keys, t'.weights), name, n), name, n)
  {
  }

  /** Adding the n-th feed, however it joins, keeps the weights non-negative iff each of the others was at least 1/(n(n-1)). */
  lemma NthFeedKeepsNonNegative(t: Table, name: Name, topic: Option<Topic>, n: nat)
    requires CanJoin(t, name, topic) && n == |t.alloc| + 1 > 1
    ensures AllAtLeast(AddFeed(t, name, topic).table.weights, 0.0)
       <==> AllAtLeast(t.weights, Contribution(n))
    ensures name in t.feeds ==>
      (AllAtLeast(ChangeAllocStatus(t, name, true).table.weights, 0.0)
       <==> AllAtLeast(t.weights, Contribution(n)))
  {
    assert Structured(t);
    hide AddFeed, ChangeAllocStatus, Structured, Sound, AllAtLeast, Joined, Contribution;
    NthFeedWeights(t, name, topic, n);
    JoinedNonNegative(t.weights, AddFeed(t, name, topic).table.weights, name, n);
    if name in t.feeds {
      TakenBackWeights(t, name, n);
      JoinedNonNegative(t.weights, ChangeAllocStatus(t, name, true).table.weights, name, n);
    }
  }

  lemma JoinedNonNegative(before: map<Name, real>, after: map<Name, real>, name: Name, n: nat)
    requires n > 1 && Joined(before, after, name, n)
    ensures AllAtLeast(after, 0.0) <==> AllAtLeast(before, Contribution(n))
  {
    ContributionIsQuotient(n);
    hide EqualPart, Contribution;
    assert after[name] >= 0.0;
    if AllAtLeast(after, 0.0) {
      forall f | f in before ensures before[f] >= Contribution(n) {
        assert after[f] >= 0.0;
      }
    }
  }

  // ----- uniform runs -----

  /** The run neither carries user weights nor names the feed that stands for no feed. */
  ghost predicate NoUserWeights(commands: seq<Command>)
  {
    forall c :: c in commands ==>
      match c
      case ForFeed(name, _) => name != NO_FEED
      case ForAll(generals) => forall g :: g in generals ==> !g.Weights?
  }

  lemma {:induction false} ApplyAllKeepsEqual(t: Table, name: Name, actions: seq<Action>)
    requires Sound(t) && AllEqual(t.weights) && name != NO_FEED
    ensures var s := ApplyAll(t, name, actions); !s.raised ==> Sound(s.table) && AllEqual(s.table.weights)
    decreases actions
  {
    if !(actions == [] || (name !in t.feeds && !actions[0].TurnOn?)) {
      ApplyFits(t, name, actions[0]);
      var s := Apply(t, name, actions[0]);
      hide Apply, Statuses, WeightsFit, Distinct, AllEqual;
      if !s.raised { ApplyAllKeepsEqual(s.table, name, actions[1..]); }
    }
  }

  lemma {:induction false} GeneralsKeepWeights(t: Table, generals: seq<General>)
    requires forall g :: g in generals ==> !g.Weights?
    ensures var s := ApplyGenerals(t, generals);
      !s.raised && s.table == t.(limits := s.table.limits)
    decreases generals
  {
    if generals != [] {
      assert generals[0] in generals;
      GeneralsKeepWeights(ApplyGeneral(t, generals[0]).table, generals[1..]);
    }
  }

  /** Without user weights, weights that start uniform are 1/n each after every run. */
  lemma {:induction false} RunStaysUniform(t: Table, commands: seq<Command>)
    requires Sound(t) && AllEqual(t.weights) && NoUserWeights(commands)
    ensures var s := Run(t, commands);
      !s.raised ==> Sound(s.table) && forall f :: f in s.table.alloc ==> s.table.weights[f] == EqualPart(|s.table.alloc|)
    decreases commands
  {
    if commands == [] {
      EqualIsEven(t);
    } else {
      var s := Execute(t, commands[0]);
      assert commands[0] in commands;
      assert forall c :: c in commands[1..] ==> c in commands;
      ExecuteStructured(t, commands[0]);
      UniformExecute(t, commands[0]);
      hide Statuses, WeightsFit, Distinct, Execute, AllEqual, EqualPart;
      if !s.raised { RunStaysUniform(s.table, commands[1..]); }
    }
  }

  lemma UniformExecute(t: Table, command: Command)
    requires Sound(t) && AllEqual(t.weights) && NoUserWeights([command])
    ensures var s := Execute(t, command); !s.raised ==> Sound(s.table) && AllEqual(s.table.weights)
  {
    assert command in [command];
    hide AllEqual, ApplyAll, ApplyGenerals, Distinct, StatusesOf;
    match command
    case ForFeed(name, actions) => ApplyAllKeepsEqual(t, name, actions);
    case ForAll(generals) => GeneralsKeepWeights(t, generals);
  }
}
