/** What single actions and whole messages do to states, limits and the log, and what undoes an action. */
module FeedActions {
  import opened Options
  import opened Feeds
  import opened FeedInvariants
  import opened FeedWeights
  import opened FeedRuns

  // ----- states -----

  /** Feeds other than name keep their state, their topic and their place in or out of the allocated set. */
  ghost predicate OthersUntouched(t: Table, t': Table, name: Name)
  {
    && t'.feeds - {name} == t.feeds - {name}
    && t'.topics - {name} == t.topics - {name}
    && t'.alloc - {name} == t.alloc - {name}
  }

  ghost predicate SameStates(t: Table, t': Table)
  {
    t'.feeds == t.feeds && t'.topics == t.topics && t'.alloc == t.alloc
  }

  /** The feed is in the given state, and in the allocated set or not. */
  ghost predicate Stands(t: Table, name: Name, state: FeedState, inside: bool)
  {
    name in t.feeds && t.feeds[name] == state && (name in t.alloc <==> inside)
  }

  /** Where an action leaves its feed. */
  ghost predicate LeavesFeed(t: Table, t': Table, name: Name, action: Action)
    requires name in t.feeds || action.TurnOn?
  {
    match action
    case TurnOff(_) => Stands(t', name, Off, false)
    case Manually(flag) => if flag then Stands(t', name, Manual, false) else Stands(t', name, Allocated, true)
    case TurnOn(topic) =>
      Stands(t', name, Allocated, true) && (name !in t.feeds ==> topic.Some? && t'.alloc[name] == topic.value)
    case Alloc(flag) =>
      if flag then (if t.feeds[name] == Independent then Stands(t', name, Allocated, true) else SameStates(t, t'))
      else if t.feeds[name] == Allocated then Stands(t', name, Independent, t.alloc.Keys == {name})
      else SameStates(t, t')
    case _ => SameStates(t, t')
  }

  lemma WeightsMoveNobody(t: Table, given: map<Name, real>)
    ensures SameStates(t, UpdateWeights(t, given).table)
    ensures UpdateWeights(t, given).table.limits == t.limits && UpdateWeights(t, given).table.log == t.log
    ensures UpdateWeights(t, given).table.initLimits == t.initLimits
  {
    hide NewWeights;
  }

  lemma NewFeedMoves(t: Table, name: Name, topic: Topic)
    requires name !in t.feeds && name !in t.topics && name !in t.alloc
    ensures var t' := WithNewFeed(t, name, topic);
      Stands(t', name, Allocated, true) && OthersUntouched(t, t', name) && t'.alloc[name] == topic
  {
  }

  lemma AllocatedMoves(t: Table, name: Name)
    requires name in t.feeds && name in t.topics
    ensures var t' := WithAllocated(t, name);
      Stands(t', name, Allocated, true) && OthersUntouched(t, t', name)
  {
  }

  lemma IndependentMoves(t: Table, name: Name)
    requires name in t.feeds && name in t.alloc
    ensures var t' := WithIndependent(t, name);
      Stands(t', name, Independent, t.alloc.Keys == {name}) && OthersUntouched(t, t', name)
  {
    OnlyKey(t.alloc, name);
  }

  lemma AddFeedMoves(t: Table, name: Name, topic: Option<Topic>)
    requires Structured(t) && Statuses(t) && (name !in t.feeds ==> topic.Some?)
    ensures var t' := AddFeed(t, name, topic).table;
      && Stands(t', name, Allocated, true) && OthersUntouched(t, t', name)
      && (name !in t.feeds ==> t'.alloc[name] == topic.value)
      && t'.limits == t.limits && t'.initLimits == t.initLimits && t'.log == t.log
  {
    assert name in t.feeds <==> name in t.topics;
    assert name in t.alloc ==> name in t.feeds;
    AllocatedInside(t, name);
    hide UpdateWeights, Structured, Statuses, Stands, OthersUntouched;
    if name !in t.feeds {
      NewFeedMoves(t, name, topic.value);
      SameStands(t, WithNewFeed(t, name, topic.value), name, Allocated, true);
    } else if t.feeds[name] != Allocated {
      AllocatedMoves(t, name);
      SameStands(t, WithAllocated(t, name), name, Allocated, true);
    } else {
      StandsStill(t, name);
      SameStands(t, t, name, Allocated, true);
    }
  }

  lemma StandsStill(t: Table, name: Name)
    requires name in t.feeds && t.feeds[name] == Allocated && name in t.alloc
    ensures Stands(t, name, Allocated, true) && OthersUntouched(t, t, name)
  {
  }

  /** The weight update after a move changes nothing of it. */
  lemma SameStands(t: Table, t': Table, name: Name, state: FeedState, inside: bool)
    requires Stands(t', name, state, inside) && OthersUntouched(t, t', name)
    ensures var u := UpdateWeights(t', t'.weights).table;
      && Stands(u, name, state, inside) && OthersUntouched(t, u, name) && u.alloc == t'.alloc && u.topics == t'.topics
      && u.limits == t'.limits && u.initLimits == t'.initLimits && u.log == t'.log
  {
    WeightsMoveNobody(t', t'.weights);
    hide UpdateWeights;
  }

  lemma RemoveFeedMoves(t: Table, name: Name, state: FeedState)
    requires Structured(t) && name in t.feeds
    ensures var t' := RemoveFeed(t, name, state).table;
      && Stands(t', name, state, false) && OthersUntouched(t, t', name) && t'.topics == t.topics
      && t'.limits == t.limits && t'.initLimits == t.initLimits && t'.log == t.log
  {
    hide UpdateWeights, Structured;
    WeightsMoveNobody(t.(feeds := t.feeds[name := state], alloc := t.alloc - {name}), t.weights);
  }

  lemma ChangeMoves(t: Table, name: Name, isAlloc: bool)
    requires Structured(t) && name in t.feeds && (!isAlloc ==> name in t.alloc)
    ensures var t' := ChangeAllocStatus(t, name, isAlloc).table;
      && (isAlloc ==> Stands(t', name, Allocated, true))
      && (!isAlloc ==> Stands(t', name, Independent, t.alloc.Keys == {name}))
      && OthersUntouched(t, t', name) && t'.topics == t.topics
      && t'.limits == t.limits && t'.initLimits == t.initLimits && t'.log == t.log
  {
    assert name in t.topics;
    hide UpdateWeights, Structured, Stands, OthersUntouched;
    if isAlloc {
      AllocatedMoves(t, name);
      SameStands(t, WithAllocated(t, name), name, Allocated, true);
    } else {
      IndependentMoves(t, name);
      SameStands(t, WithIndependent(t, name), name, Independent, t.alloc.Keys == {name});
    }
  }

  lemma OnlyKey(alloc: map<Name, Topic>, name: Name)
    requires name in alloc
    ensures |alloc| > 1 <==> alloc.Keys != {name}
  {
    assert |alloc| == |alloc.Keys|;
    if |alloc| <= 1 {
      AtMostOneKey(alloc, name);
    }
  }

  /** Every action leaves its feed where it says and the others where they are. */
  lemma ActionMoves(t: Table, name: Name, action: Action)
    requires Structured(t) && Statuses(t) && (name in t.feeds || action.TurnOn?) && !Apply(t, name, action).raised
    ensures var t' := Apply(t, name, action).table;
      LeavesFeed(t, t', name, action) && OthersUntouched(t, t', name)
  {
    hide Apply, LeavesFeed, OthersUntouched, Structured, Statuses;
    match action
    case TurnOff(flag) => TurnOffMoves(t, name, flag);
    case Manually(flag) => ManuallyMoves(t, name, flag);
    case TurnOn(topic) => TurnOnMoves(t, name, topic);
    case Alloc(flag) => AllocMoves(t, name, flag);
    case _ => OthersMoveNobody(t, name, action);
  }

  lemma TurnOffMoves(t: Table, name: Name, flag: bool)
    requires Structured(t) && name in t.feeds
    ensures var t' := Apply(t, name, TurnOff(flag)).table;
      LeavesFeed(t, t', name, TurnOff(flag)) && OthersUntouched(t, t', name)
  {
    TurnOffIs(t, name, flag);
    hide Apply, RemoveFeed, Structured;
    RemoveFeedMoves(WithOffNotice(t, name, flag), name, Off);
  }

  lemma ManuallyMoves(t: Table, name: Name, flag: bool)
    requires Structured(t) && Statuses(t) && name in t.feeds
    ensures var t' := Apply(t, name, Manually(flag)).table;
      LeavesFeed(t, t', name, Manually(flag)) && OthersUntouched(t, t', name)
  {
    hide AddFeed, RemoveFeed, Structured, Statuses, Stands, OthersUntouched;
    if flag {
      RemoveFeedMoves(t, name, Manual);
    } else {
      AddFeedMoves(t, name, None);
    }
  }

  lemma TurnOnMoves(t: Table, name: Name, topic: Option<Topic>)
    requires Structured(t) && Statuses(t) && !Apply(t, name, TurnOn(topic)).raised
    ensures var t' := Apply(t, name, TurnOn(topic)).table;
      LeavesFeed(t, t', name, TurnOn(topic)) && OthersUntouched(t, t', name)
  {
    hide AddFeed, Structured, Statuses, Stands, OthersUntouched;
    if name in t.feeds || topic.Some? {
      AddFeedMoves(t, name, topic);
    } else {
      MissingTopicRaises(t, name);
    }
  }

  lemma AllocMoves(t: Table, name: Name, flag: bool)
    requires Structured(t) && Statuses(t) && name in t.feeds
    ensures var t' := Apply(t, name, Alloc(flag)).table;
      LeavesFeed(t, t', name, Alloc(flag)) && OthersUntouched(t, t', name)
  {
    AllocatedInside(t, name);
    hide ChangeAllocStatus, Structured, Statuses, Stands;
    if t.feeds[name] == (if flag then Independent else Allocated) {
      ChangeMoves(t, name, flag);
    }
  }

  lemma OthersMoveNobody(t: Table, name: Name, action: Action)
    requires Structured(t) && name in t.feeds && (action.Relay? || action.MaxBitrate? || action.UnknownAction?)
    ensures var t' := Apply(t, name, action).table;
      LeavesFeed(t, t', name, action) && OthersUntouched(t, t', name)
  {
    hide Structured;
  }

  lemma AllocatedInside(t: Table, name: Name)
    requires Statuses(t)
    ensures name in t.feeds && t.feeds[name] == Allocated ==> name in t.alloc
  {
  }

  lemma MissingTopicRaises(t: Table, name: Name)
    requires Structured(t) && name !in t.feeds
    ensures AddFeed(t, name, None) == Step(t, true)
  {
  }

  // ----- the log and the limits -----

  /** What an action sends to the feed's connector. */
  function Notice(name: Name, topic: Topic, action: Action): seq<Publication>
  {
    match action
    case Relay(key, sent) => [ToConnector(name, topic, key, sent)]
    case TurnOff(flag) => if flag then [ToConnector(name, topic, OFF, TRUE)] else []
    case _ => []
  }

  function Notices(name: Name, topic: Topic, actions: seq<Action>): seq<Publication>
  {
    if actions == [] then [] else Notice(name, topic, actions[0]) + Notices(name, topic, actions[1..])
  }

  /** The bitrate of the last max_bitrate action, or else the one given. */
  function LastMaximum(actions: seq<Action>, otherwise: real): real
  {
    if actions == [] then otherwise
    else LastMaximum(actions[1..], if actions[0].MaxBitrate? then actions[0].value else otherwise)
  }

  /** The limits with v as the upper limit of the bitrate, from the initial lower one. */
  function WithMaximum(t: Table, v: real): map<Key, (real, real)>
    requires BITRATE in t.initLimits
  {
    t.limits[BITRATE := (t.initLimits[BITRATE].0, v)]
  }

  ghost predicate SameFeed(t: Table, t': Table, name: Name)
  {
    && name in t.feeds && name in t.topics && name in t'.feeds && name in t'.topics && t'.topics[name] == t.topics[name]
    && t'.initLimits == t.initLimits
  }

  /** What an action leaves in the log and the limits, and that its feed and the initial limits stay. */
  ghost predicate Effects(t: Table, t': Table, name: Name, action: Action)
  {
    && SameFeed(t, t', name)
    && t'.log == t.log + Notice(name, t.topics[name], action)
    && (action.MaxBitrate? && BITRATE in t.limits ==> BITRATE in t.initLimits && t'.limits == WithMaximum(t, action.value))
    && (!(action.MaxBitrate? && BITRATE in t.limits) ==> t'.limits == t.limits)
  }

  lemma ActionSends(t: Table, name: Name, action: Action)
    requires Structured(t) && Statuses(t) && name in t.feeds && !Apply(t, name, action).raised
    ensures Effects(t, Apply(t, name, action).table, name, action)
  {
    hide Apply, Structured, Statuses, Effects;
    match action
    case TurnOff(flag) => TurnOffSends(t, name, flag);
    case Manually(flag) => ManuallySends(t, name, flag);
    case TurnOn(topic) => TurnOnSends(t, name, topic);
    case Alloc(flag) => AllocSends(t, name, flag);
    case _ => OthersSend(t, name, action);
  }

  /** Nothing but states and weights has changed. */
  ghost predicate Quiet(t: Table, t': Table, name: Name)
  {
    && name in t.feeds && name in t'.feeds && name in t.topics
    && t'.topics == t.topics && t'.limits == t.limits && t'.initLimits == t.initLimits && t'.log == t.log
  }

  lemma QuietEffects(t: Table, t': Table, name: Name, action: Action)
    requires Quiet(t, t', name) && !action.MaxBitrate? && (name in t.topics ==> Notice(name, t.topics[name], action) == [])
    ensures Effects(t, t', name, action)
  {
    hide Notice;
  }

  lemma KnownFeedQuiet(t: Table, name: Name, topic: Option<Topic>)
    requires Structured(t) && Statuses(t) && name in t.feeds
    ensures Quiet(t, AddFeed(t, name, topic).table, name)
  {
    assert name in t.topics;
    hide AddFeed, Structured, Statuses, OthersUntouched;
    AddFeedMoves(t, name, topic);
    KnownTopic(t, name, topic);
  }

  lemma RemoveFeedQuiet(t: Table, name: Name, state: FeedState)
    requires Structured(t) && name in t.feeds
    ensures Quiet(t, RemoveFeed(t, name, state).table, name)
  {
    assert name in t.topics;
    hide RemoveFeed, Structured, OthersUntouched;
    RemoveFeedMoves(t, name, state);
  }

  lemma ChangeQuiet(t: Table, name: Name, isAlloc: bool)
    requires Structured(t) && name in t.feeds && (!isAlloc ==> name in t.alloc)
    ensures Quiet(t, ChangeAllocStatus(t, name, isAlloc).table, name)
  {
    assert name in t.topics;
    hide ChangeAllocStatus, Structured, OthersUntouched;
    ChangeMoves(t, name, isAlloc);
  }

  lemma StillQuiet(t: Table, name: Name)
    requires Structured(t) && name in t.feeds
    ensures Quiet(t, t, name)
  {
  }

  lemma TurnOffSends(t: Table, name: Name, flag: bool)
    requires Structured(t) && name in t.feeds
    ensures Effects(t, Apply(t, name, TurnOff(flag)).table, name, TurnOff(flag))
  {
    TurnOffIs(t, name, flag);
    hide Apply, RemoveFeed, Structured;
    RemoveFeedQuiet(WithOffNotice(t, name, flag), name, Off);
  }

  lemma ManuallySends(t: Table, name: Name, flag: bool)
    requires Structured(t) && Statuses(t) && name in t.feeds
    ensures Effects(t, Apply(t, name, Manually(flag)).table, name, Manually(flag))
  {
    hide AddFeed, RemoveFeed, Structured, Statuses, Quiet, Effects;
    if flag {
      RemoveFeedQuiet(t, name, Manual);
    } else {
      KnownFeedQuiet(t, name, None);
    }
    QuietEffects(t, Apply(t, name, Manually(flag)).table, name, Manually(flag));
  }

  lemma TurnOnSends(t: Table, name: Name, topic: Option<Topic>)
    requires Structured(t) && Statuses(t) && name in t.feeds
    ensures Effects(t, Apply(t, name, TurnOn(topic)).table, name, TurnOn(topic))
  {
    TurnOnIs(t, name, TurnOn(topic));
    hide Apply, AddFeed, Structured, Statuses, Quiet, Effects;
    KnownFeedQuiet(t, name, topic);
    QuietEffects(t, Apply(t, name, TurnOn(topic)).table, name, TurnOn(topic));
  }

  lemma AllocSends(t: Table, name: Name, flag: bool)
    requires Structured(t) && Statuses(t) && name in t.feeds
    ensures Effects(t, Apply(t, name, Alloc(flag)).table, name, Alloc(flag))
  {
    AllocatedInside(t, name);
    hide ChangeAllocStatus, Structured, Statuses, Quiet, Effects;
    if t.feeds[name] == (if flag then Independent else Allocated) {
      ChangeQuiet(t, name, flag);
    } else {
      StillQuiet(t, name);
    }
    QuietEffects(t, Apply(t, name, Alloc(flag)).table, name, Alloc(flag));
  }

  lemma OthersSend(t: Table, name: Name, action: Action)
    requires Structured(t) && name in t.feeds && (action.Relay? || action.MaxBitrate? || action.UnknownAction?)
    requires !Apply(t, name, action).raised
    ensures Effects(t, Apply(t, name, action).table, name, action)
  {
    assert name in t.topics;
    hide Structured;
  }

  lemma KnownTopic(t: Table, name: Name, topic: Option<Topic>)
    requires Structured(t) && name in t.feeds
    ensures AddFeed(t, name, topic).table.topics == t.topics
  {
    hide NewWeights, Distinct;
  }

  /** What a message for the feed leaves: everything it sends is logged in order, and the last maximum stands. */
  ghost predicate Sends(t: Table, t': Table, name: Name, actions: seq<Action>)
  {
    && SameFeed(t, t', name)
    && t'.log == t.log + Notices(name, t.topics[name], actions)
    && t'.limits.Keys == t.limits.Keys
    && (BITRATE in t.limits ==> t'.limits[BITRATE].1 == LastMaximum(actions, t.limits[BITRATE].1))
    && (forall key :: key in t.limits && key != BITRATE ==> t'.limits[key] == t.limits[key])
  }

  lemma SendsNothing(t: Table, name: Name)
    requires name in t.feeds && name in t.topics
    ensures Sends(t, t, name, [])
  {
  }

  lemma SendsNext(t: Table, t1: Table, t': Table, name: Name, actions: seq<Action>)
    requires actions != [] && SameFeed(t, t1, name) && Sends(t1, t', name, actions[1..])
    requires t1.log == t.log + Notice(name, t.topics[name], actions[0])
    requires actions[0].MaxBitrate? && BITRATE in t.limits ==> BITRATE in t.initLimits && t1.limits == WithMaximum(t, actions[0].value)
    requires !(actions[0].MaxBitrate? && BITRATE in t.limits) ==> t1.limits == t.limits
    ensures Sends(t, t', name, actions)
  {
    hide Notice;
  }

  /**
   A message for a known feed that does not raise logs exactly what its actions send, in order, and
   leaves the bitrate limit of the last max_bitrate action.
   */
  lemma {:induction false} MessageSends(t: Table, name: Name, actions: seq<Action>)
    requires Structured(t) && Statuses(t) && name in t.feeds && !ApplyAll(t, name, actions).raised
    ensures Sends(t, ApplyAll(t, name, actions).table, name, actions)
    decreases actions
  {
    if actions == [] {
      assert name in t.topics;
      SendsNothing(t, name);
    } else {
      ActionSends(t, name, actions[0]);
      ApplyStructured(t, name, actions[0]);
      ApplyKeepsStatuses(t, name, actions[0]);
      hide Apply, Structured, Statuses, Sends, Notice, WithMaximum;
      var t1 := Apply(t, name, actions[0]).table;
      MessageSends(t1, name, actions[1..]);
      SendsNext(t, t1, ApplyAll(t1, name, actions[1..]).table, name, actions);
    }
  }

  /** A command for all feeds: only the bitrate limits can be set, only the weights by weights, and nothing else changes. */
  lemma GeneralChanges(t: Table, general: General)
    ensures var t' := ApplyGeneral(t, general).table;
      && t' == t.(weights := t'.weights, limits := t'.limits)
      && (!general.Weights? ==> t'.weights == t.weights && !ApplyGeneral(t, general).raised)
      && (!general.Limits? ==> t'.limits == t.limits)
      && (general.Limits? ==>
            && t'.limits.Keys == t.limits.Keys + (if BITRATE in general.bounds then {BITRATE} else {})
            && forall key :: key in t'.limits ==>
                 t'.limits[key] == if key == BITRATE && BITRATE in general.bounds then general.bounds[BITRATE] else t.limits[key])
  {
    hide UpdateWeights;
    if general.Weights? {
      OnlyWeights(t, general.given);
    }
  }

  lemma OnlyWeights(t: Table, given: map<Name, real>)
    ensures UpdateWeights(t, given).table == t.(weights := UpdateWeights(t, given).table.weights)
  {
    hide NewWeights;
  }

  /** Commands for all feeds apply one after the other, up to one that raises. */
  lemma {:induction false} GeneralsSplit(t: Table, first: seq<General>, second: seq<General>)
    ensures ApplyGenerals(t, first + second) ==
      var s := ApplyGenerals(t, first); if s.raised then s else ApplyGenerals(s.table, second)
    decreases first
  {
    hide ApplyGeneral;
    if first == [] {
      assert first + second == second;
    } else {
      assert (first + second)[0] == first[0] && (first + second)[1..] == first[1..] + second;
      GeneralsSplit(ApplyGeneral(t, first[0]).table, first[1..], second);
    }
  }

  /** A new feed comes last in feed order, and no action changes the order of the others. */
  lemma ActionOrders(t: Table, name: Name, action: Action)
    requires Structured(t) && (name in t.feeds || action.TurnOn?)
    ensures Apply(t, name, action).table.order ==
      if name !in t.feeds && action.topic.Some? then t.order + [name] else t.order
  {
    hide Distinct, NewWeights;
  }

  /** Actions for a feed apply one after the other: a message is its beginning followed by its end, unless the beginning raises. */
  lemma {:induction false} MessageSplits(t: Table, name: Name, first: seq<Action>, second: seq<Action>)
    requires Structured(t) && Statuses(t) && name in t.feeds
    ensures Structured(ApplyAll(t, name, first).table)
    ensures ApplyAll(t, name, first + second) ==
      var s := ApplyAll(t, name, first); if s.raised then s else ApplyAll(s.table, name, second)
    decreases first
  {
    if first == [] {
      assert first + second == second;
    } else {
      assert (first + second)[0] == first[0] && (first + second)[1..] == first[1..] + second;
      ApplyStructured(t, name, first[0]);
      ApplyKeepsStatuses(t, name, first[0]);
      if !Apply(t, name, first[0]).raised {
        ActionSends(t, name, first[0]);
        hide Apply, Structured, Statuses;
        MessageSplits(Apply(t, name, first[0]).table, name, first[1..], second);
      }
    }
  }

  /** For an unknown feed everything from the first action on is ignored, unless that turns the feed on. */
  lemma UnknownFeedIgnored(t: Table, name: Name, actions: seq<Action>)
    requires Structured(t) && name !in t.feeds && (actions == [] || !actions[0].TurnOn?)
    ensures ApplyAll(t, name, actions) == Step(t, false)
  {
  }

  // ----- there and back -----

  /** The action that undoes one by which a feed leaves. */
  predicate Undoes(back: Action, away: Action)
  {
    match away
    case TurnOff(_) => back == TurnOn(None)
    case Manually(flag) => flag && back == Manually(false)
    case Alloc(flag) => !flag && back == Alloc(true)
    case _ => false
  }

  /** What the others weigh after a feed of weight w has left n feeds and come back. */
  function AfterReturn(v: real, w: real, n: nat): real
    requires n > 1
  {
    v + PartOf(w, n - 1) - Contribution(n)
  }

  /** Everybody is where he was; name weighs 1/n and f what is left after its return. */
  ghost predicate Returned(t: Table, t': Table, name: Name, f: Name)
  {
    && SameStates(t, t') && |t.alloc| > 1
    && name in t.weights && name in t'.weights && t'.weights[name] == EqualPart(|t.alloc|)
    && f in t.weights && f in t'.weights && t'.weights[f] == AfterReturn(t.weights[f], t.weights[name], |t.alloc|)
  }

  /**
   A feed that leaves n allocated ones and comes back restores all states, topics and allocated
   feeds. It then weighs 1/n, whatever it weighed before, and the difference is spread over the others.
   */
  lemma ThereAndBack(t: Table, name: Name, away: Action, back: Action, f: Name)
    requires Sound(t) && Undoes(back, away) && name in t.alloc && name in t.feeds && t.feeds[name] == Allocated && name != NO_FEED
    requires f in t.alloc && f != name
    ensures !Apply(t, name, away).raised
    ensures Structured(Apply(t, name, away).table) && name in Apply(t, name, away).table.feeds
    ensures var s := Apply(Apply(t, name, away).table, name, back); !s.raised && Returned(t, s.table, name, f)
  {
    UndoesMeans(back, away);
    SoundIsStructured(t);
    hide *;
    GoesAway(t, name, away, f);
    ComesBack(t, Apply(t, name, away).table, name, away, back, f);
  }

  /** t1 is t without name, which left by the action away. */
  ghost predicate Away(t: Table, t1: Table, name: Name, away: Action, f: Name)
  {
    && Sound(t1) && OthersUntouched(t, t1, name) && SameFeed(t, t1, name)
    && |t.alloc| == |t1.alloc| + 1 > 1 && CanJoin(t1, name, None) && (away.Alloc? ==> t1.feeds[name] == Independent)
    && f in t.weights && f in t1.weights && name in t.weights
    && t1.weights[f] == t.weights[f] + PartOf(t.weights[name], |t.alloc| - 1)
  }

  lemma GoesAway(t: Table, name: Name, away: Action, f: Name)
    requires Sound(t) && Structured(t) && Statuses(t) && Leaves(away)
    requires name in t.alloc && name in t.feeds && t.feeds[name] == Allocated && name != NO_FEED && f in t.alloc && f != name
    ensures !Apply(t, name, away).raised && Away(t, Apply(t, name, away).table, name, away, f)
    ensures Structured(Apply(t, name, away).table) && name in Apply(t, name, away).table.feeds
  {
    WeightsOfAllocated(t, name);
    WeightsOfAllocated(t, f);
    TwoKeys(t.alloc, name, f);
    hide *;
    LeavingShares(t, name, away, f);
    ApplyFits(t, name, away);
    var t1 := Apply(t, name, away).table;
    SoundIsStructured(t1);
    GoneAway(t, name, away, f);
    SameFeedMeans(t, t1, name);
    AwayIs(t, t1, name, away, f);
  }

  lemma AwayIs(t: Table, t1: Table, name: Name, away: Action, f: Name)
    requires Sound(t1) && OthersUntouched(t, t1, name) && SameFeed(t, t1, name) && name in t1.feeds
    requires |t.alloc| == |t1.alloc| + 1 && |t.alloc| > 1 && CanJoin(t1, name, None)
    requires away.Alloc? ==> t1.feeds[name] == Independent
    requires f in t.weights && f in t1.weights && name in t.weights
    requires t1.weights[f] == t.weights[f] + PartOf(t.weights[name], |t.alloc| - 1)
    ensures Away(t, t1, name, away, f)
  {
    hide Sound, OthersUntouched, SameFeed, CanJoin, PartOf;
  }

  lemma WeightsOfAllocated(t: Table, f: Name)
    requires Sound(t) && f in t.alloc
    ensures f in t.weights
  {
  }

  lemma ComesBack(t: Table, t1: Table, name: Name, away: Action, back: Action, f: Name)
    requires Sound(t) && name in t.alloc && name in t.feeds && t.feeds[name] == Allocated
    requires Away(t, t1, name, away, f) && Structured(t1) && name in t1.feeds
    requires back == TurnOn(None) || back == Manually(false) || (back == Alloc(true) && away.Alloc?)
    ensures var s := Apply(t1, name, back); !s.raised && Returned(t, s.table, name, f)
  {
    hide Apply, Structured, Statuses, Sound, PartOf, EqualPart, Contribution, OthersUntouched, SameFeed, CanJoin, Joined, SameStates, Returned;
    Rejoins(t1, name, back, |t.alloc|);
    var t' := Apply(t1, name, back).table;
    Restored(t, t1, t', name, back);
    JoinedWeights(t1.weights, t'.weights, name, |t.alloc|, f);
    ReturnedIs(t, t1.weights[f], t', name, f);
  }

  lemma UndoesMeans(back: Action, away: Action)
    requires Undoes(back, away)
    ensures Leaves(away) && !away.TurnOn? && !back.Relay?
    ensures back == TurnOn(None) || back == Manually(false) || (back == Alloc(true) && away.Alloc?)
  {
  }

  lemma SoundIsStructured(t: Table)
    requires Sound(t)
    ensures Structured(t) && Statuses(t)
  {
  }

  lemma SameFeedMeans(t: Table, t': Table, name: Name)
    requires SameFeed(t, t', name)
    ensures name in t'.feeds
  {
  }

  lemma ReturnedIs(t: Table, v: real, t': Table, name: Name, f: Name)
    requires |t.alloc| > 1 && SameStates(t, t') && name in t.weights && f in t.weights
    requires name in t'.weights && t'.weights[name] == EqualPart(|t.alloc|)
    requires f in t'.weights && t'.weights[f] == v - Contribution(|t.alloc|)
    requires v == t.weights[f] + PartOf(t.weights[name], |t.alloc| - 1)
    ensures Returned(t, t', name, f)
  {
    hide SameStates, EqualPart, Contribution, PartOf;
  }

  /** Where the feed is while it is away. */
  lemma GoneAway(t: Table, name: Name, away: Action, f: Name)
    requires Sound(t) && Leaves(away) && name in t.alloc && name in t.feeds && t.feeds[name] == Allocated && name != NO_FEED
    requires f in t.alloc && f != name && !Apply(t, name, away).raised && Sound(Apply(t, name, away).table)
    requires Apply(t, name, away).table.alloc.Keys == t.alloc.Keys - {name}
    ensures var t1 := Apply(t, name, away).table;
      && OthersUntouched(t, t1, name) && SameFeed(t, t1, name) && t1.alloc != map[] && |t.alloc| == |t1.alloc| + 1
      && CanJoin(t1, name, None) && (away.Alloc? ==> t1.feeds[name] == Independent)
  {
    hide Apply, Sound;
    ActionMovesSound(t, name, away);
    var t1 := Apply(t, name, away).table;
    assert f in t1.alloc;
    assert |t.alloc.Keys| == |t1.alloc.Keys| + 1;
    IndependentWhenAway(t, t1, name, away, f);
    hide OthersUntouched;
    assert Sound(t1) && name !in t1.alloc && name != NO_FEED && t1.alloc != map[] && name in t1.feeds;
  }

  lemma IndependentWhenAway(t: Table, t1: Table, name: Name, away: Action, f: Name)
    requires name in t.feeds && t.feeds[name] == Allocated && LeavesFeed(t, t1, name, away)
    ensures away == Alloc(false) ==> name in t1.feeds && t1.feeds[name] == Independent
  {
  }

  lemma ActionMovesSound(t: Table, name: Name, action: Action)
    requires Sound(t) && name in t.feeds && !Apply(t, name, action).raised
    ensures Structured(t) && Statuses(t)
    ensures var t' := Apply(t, name, action).table;
      LeavesFeed(t, t', name, action) && OthersUntouched(t, t', name) && SameFeed(t, t', name)
  {
    hide Apply, LeavesFeed, OthersUntouched;
    ActionMoves(t, name, action);
    ActionSends(t, name, action);
  }

  /** Coming back is joining. */
  lemma Rejoins(t: Table, name: Name, back: Action, n: nat)
    requires CanJoin(t, name, None) && n == |t.alloc| + 1 && name in t.feeds && Structured(t)
    requires back == TurnOn(None) || back == Manually(false) || (back == Alloc(true) && t.feeds[name] == Independent)
    ensures n > 1
    ensures var s := Apply(t, name, back);
      !s.raised && Joined(t.weights, s.table.weights, name, n)
  {
    hide AddFeed, ChangeAllocStatus, CanJoin, Joined, Structured;
    NthFeedWeights(t, name, None, n);
    TakenBackWeights(t, name, n);
  }

  lemma Restored(t: Table, t1: Table, t': Table, name: Name, back: Action)
    requires Sound(t) && name in t.alloc && name in t.feeds && t.feeds[name] == Allocated
    requires Sound(t1) && name in t1.feeds && Structured(t1) && !Apply(t1, name, back).raised && t' == Apply(t1, name, back).table
    requires OthersUntouched(t, t1, name) && SameFeed(t, t1, name)
    requires back == TurnOn(None) || back == Manually(false) || (back == Alloc(true) && t1.feeds[name] == Independent)
    ensures SameStates(t, t')
  {
    ActionMovesSound(t1, name, back);
    ApplyStructured(t1, name, back);
    hide Apply, Statuses, Sound, Distinct;
    assert t.alloc[name] == t.topics[name] by { AllocTopic(t, name); }
    AllocTopic(t', name);
    SameMap(t.feeds, t1.feeds, t'.feeds, name);
    SameMap(t.topics, t1.topics, t'.topics, name);
    SameMap(t.alloc, t1.alloc, t'.alloc, name);
  }

  lemma AllocTopic(t: Table, name: Name)
    requires Structured(t) || Sound(t)
    ensures name in t.alloc ==> name in t.topics && t.alloc[name] == t.topics[name]
  {
  }

  lemma SameMap<V>(m: map<Name, V>, m1: map<Name, V>, m': map<Name, V>, name: Name)
    requires m1 - {name} == m - {name} && m' - {name} == m1 - {name}
    requires name in m && name in m' && m'[name] == m[name]
    ensures m' == m
  {
    assert forall f :: f in m <==> f == name || f in m - {name};
    assert forall f :: f in m' <==> f == name || f in m' - {name};
    forall f | f in m ensures m'[f] == m[f] {
      if f != name {
        assert m[f] == (m - {name})[f] == (m' - {name})[f];
      }
    }
  }

  lemma JoinedWeights(before: map<Name, real>, after: map<Name, real>, name: Name, n: nat, f: Name)
    requires n > 1 && Joined(before, after, name, n) && f in before
    ensures name in after && after[name] == EqualPart(n) && f in after && after[f] == before[f] - Contribution(n)
  {
    hide EqualPart, Contribution;
  }

  /** The weights survive this exactly if the feed weighed 1/n. */
  lemma ReturnKeepsWeightIff(v: real, w: real, n: nat)
    requires n > 1
    ensures AfterReturn(v, w, n) == v <==> w == EqualPart(n)
  {
    var d := (n - 1) as real;
    assert PartOf(w, n - 1) * d == w;
    assert Contribution(n) * d == EqualPart(n);
  }
}
