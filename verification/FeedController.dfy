/** The feed controller as the object it is: dictionaries updated in place by the controller's methods. */
module FeedControllers {
  import opened Options
  import opened Sums
  import opened LimitMethod
  import opened Feeds
  import opened FeedInvariants
  import opened FeedWeights
  import opened Allocation
  import opened LimitFairness

  /** Adds up a dictionary's values, in any order of the keys. */
  method SumValues(m: map<Name, real>) returns (total: real)
    ensures total == SumOf(m)
  {
    total := 0.0;
    var rest := m;
    while rest != map[]
      invariant total + SumOf(rest) == SumOf(m)
      decreases |rest|
    {
      assert rest.Keys != {};
      var f :| f in rest;
      SumOfRemove(rest, f);
      assert (rest - {f}).Keys == rest.Keys - {f};
      total := total + rest[f];
      rest := rest - {f};
    }
  }

  /** The weights after the pass over the first feeds has seen visited. */
  ghost predicate PassedOver(m: map<Name, real>, weights: map<Name, real>, alloc: map<Name, Topic>, visited: set<Name>, given: map<Name, real>)
  {
    m == Assigned(weights, alloc, visited, given)
  }

  lemma NothingVisited(weights: map<Name, real>, alloc: map<Name, Topic>, given: map<Name, real>)
    ensures PassedOver(weights, weights, alloc, {}, given)
  {
  }

  lemma VisitOne(m: map<Name, real>, weights: map<Name, real>, alloc: map<Name, Topic>, visited: set<Name>, given: map<Name, real>, f: Name)
    requires PassedOver(m, weights, alloc, visited, given) && f !in visited
    ensures var m' :=
        if f in alloc then m[f := if f in given then given[f] else 0.0]
        else if f in given then m - {f} else m;
      PassedOver(m', weights, alloc, visited + {f}, given)
  {
  }

  /** Moves every weight by the same amount. */
  method ShiftAll(m: map<Name, real>, c: real) returns (m': map<Name, real>)
    ensures m'.Keys == m.Keys && forall f :: f in m ==> m'[f] == m[f] + c
    ensures m' == Shifted(m, c)
  {
    m' := m;
    var rest := m.Keys;
    while rest != {}
      invariant rest <= m.Keys && m'.Keys == m.Keys
      invariant forall f :: f in m ==> m'[f] == if f in rest then m[f] else m[f] + c
      decreases |rest|
    {
      var f :| f in rest;
      m' := m'[f := m'[f] + c];
      rest := rest - {f};
    }
  }

  /** The newest feed is set to its part and every other feed pays its contribution. */
  method MakeRoomFor(m: map<Name, real>, newest: Name, n: nat) returns (m': map<Name, real>)
    requires newest in m && n > 1
    ensures m' == WithRoomFor(m, newest, n)
  {
    hide EqualPart;
    var equal := EqualPart(n);
    var minus := equal / (n - 1) as real;
    assert minus == Contribution(n);
    hide Contribution;
    m' := m[newest := equal];
    var rest := m.Keys;
    while rest != {}
      invariant rest <= m.Keys && m'.Keys == m.Keys
      invariant forall f :: f in m ==>
        m'[f] == if f == newest then equal else if f in rest then m[f] else m[f] - minus
      decreases |rest|
    {
      var f :| f in rest;
      if f != newest {
        m' := m'[f := m'[f] - minus];
      }
      rest := rest - {f};
    }
  }

  lemma EvenedWhenOne(m: map<Name, real>, n: nat)
    requires n > 0 && SumOf(m) == 1.0
    ensures Evened(m, n) == m
  {
  }

  /** How a call to allocate ends. */
  datatype Allocating = Published | Unfinished | Raised

  /**
   What the result of an allocation says: Published, that every loop exits; Raised, that a lookup
   fails or the loop of some action raises; and Unfinished, without negative weights, that the loop
   of some action never exits.
   */
  ghost predicate AllocationResult(t: Table, arrived: seq<Name>, actions: map<Name, Actions>, result: Allocating)
  {
    match result
    case Published => LooksUp(arrived, actions, t.weights) && AllExit(t, arrived, actions)
    case Raised => LooksUp(arrived, actions, t.weights) ==>
      exists key :: key in actions[arrived[0]] && Limited(t, arrived, actions, key).Some? && !Exits(Limited(t, arrived, actions, key))
    case Unfinished =>
      && LooksUp(arrived, actions, t.weights)
      && (Regular(t, arrived, actions) ==>
          exists key :: key in actions[arrived[0]] && Limited(t, arrived, actions, key).None?)
  }

  lemma SuccessIff(t: Table, arrived: seq<Name>, actions: map<Name, Actions>, result: Allocating)
    requires AllocationResult(t, arrived, actions, result) && LooksUp(arrived, actions, t.weights)
    ensures Regular(t, arrived, actions) ==> (result.Published? <==> AllExit(t, arrived, actions))
  {
    hide Limited, Regular, LooksUp;
  }

  class FeedController {
    var feedOrder: seq<Name>
    var feeds: map<Name, FeedState>
    var feedTopics: map<Name, Topic>
    var allocatedFeedTopics: map<Name, Topic>
    var allocationWeights: map<Name, real>
    var initActionLimits: map<Key, (real, real)>
    var actionLimits: map<Key, (real, real)>
    ghost var published: seq<Publication>

    ghost function View(): Table
      reads this
    {
      Table(feedOrder, feeds, feedTopics, allocatedFeedTopics, allocationWeights, initActionLimits, actionLimits, published)
    }

    /** Every feed starts allocated; without given weights they all weigh the same. */
    constructor (order: seq<Name>, topics: map<Name, Topic>, weights: map<Name, real>, limits: map<Key, (real, real)>)
      requires Distinct(order) && (set f | f in order) == topics.Keys
      ensures Structured(View()) && Statuses(View())
      ensures View().order == order && View().topics == topics
      ensures View().weights == if weights == map[] then map f | f in topics :: EqualPart(|topics|) else weights
      ensures weights == map[] || (weights.Keys == topics.Keys && SumOf(weights) == 1.0) ==> WeightsFit(View())
      ensures weights == map[] ==> AllEqual(View().weights)
      ensures View().limits == View().initLimits == limits && View().alloc == topics && View().log == []
    {
      feedOrder := order;
      feeds := map f | f in topics :: Allocated;
      feedTopics := topics;
      allocatedFeedTopics := topics;
      allocationWeights := if weights == map[] then map f | f in topics :: EqualPart(|topics|) else weights;
      initActionLimits, actionLimits := limits, limits;
      published := [];
      new;
      InitialFits(View(), topics, weights);
      hide *;
    }

    /** Gives the allocated feeds the weights given, evened out to one or making room for a new feed. */
    method UpdateAllocationWeights(given: map<Name, real>) returns (raised: bool)
      requires Structured(View())
      modifies this`allocationWeights
      ensures Step(View(), raised) == UpdateWeights(old(View()), given)
    {
      hide Structured, Assigned, LastMissing, SumOf, Evened, WithRoomFor, Shifted, PassedOver;
      raised := false;
      if allocatedFeedTopics == map[] {
        return;
      }
      var givenSum := SumValues(given);
      if givenSum > 1.0 {
        return;
      }
      var newFeed := PassOverFeeds(given);
      var total := SumValues(allocationWeights);
      var n := |allocatedFeedTopics|;
      assert allocatedFeedTopics.Keys != {};
      if newFeed == NO_FEED && total != 1.0 {
        var extra := (1.0 - total) / n as real;
        EvenedIs(allocationWeights, n, extra);
        allocationWeights := ShiftAll(allocationWeights, extra);
      } else if newFeed == NO_FEED {
        EvenedWhenOne(allocationWeights, n);
      } else if n == 1 {
        allocationWeights := allocationWeights[newFeed := 1.0];
        raised := true;
      } else {
        allocationWeights := MakeRoomFor(allocationWeights, newFeed, n);
      }
    }

    /** The pass over all feeds; returns the last allocated one that was given no weight. */
    method PassOverFeeds(given: map<Name, real>) returns (newFeed: Name)
      requires Structured(View())
      modifies this`allocationWeights
      ensures allocationWeights == Assigned(old(allocationWeights), allocatedFeedTopics, feeds.Keys, given)
      ensures newFeed == LastMissing(feedOrder, allocatedFeedTopics, given)
      ensures newFeed != NO_FEED ==> newFeed in allocationWeights
    {
      hide PassedOver, Assigned, Structured, LastMissing;
      newFeed := NO_FEED;
      ghost var weights := allocationWeights;
      ghost var before := View();
      NothingVisited(weights, allocatedFeedTopics, given);
      BeforeFirst(feedOrder, allocatedFeedTopics, given);
      for i := 0 to |feedOrder|
        invariant PassedOver(allocationWeights, weights, allocatedFeedTopics, Members(feedOrder[..i]), given)
        invariant newFeed == LastMissing(feedOrder[..i], allocatedFeedTopics, given)
      {
        var f := feedOrder[i];
        VisitNext(before, i, given);
        VisitOne(allocationWeights, weights, allocatedFeedTopics, Members(feedOrder[..i]), given, f);
        if f in allocatedFeedTopics && f !in given {
          allocationWeights := allocationWeights[f := 0.0];
          newFeed := f;
        } else if f !in allocatedFeedTopics && f in given {
          allocationWeights := allocationWeights - {f};
        } else if f in allocatedFeedTopics && f in given {
          allocationWeights := allocationWeights[f := given[f]];
        }
      }
      AfterLast(before);
      PassFinished(allocationWeights, weights, allocatedFeedTopics, given, feedOrder);
    }

    method AddFeed(name: Name, topic: Option<Topic>) returns (raised: bool)
      requires Structured(View())
      modifies this
      ensures Step(View(), raised) == Feeds.AddFeed(old(View()), name, topic)
    {
      hide UpdateWeights, Distinct;
      if name !in feeds {
        if topic.None? {
          return true;
        }
        NewFeedStructured(View(), name, topic.value);
        feedOrder := feedOrder + [name];
        feeds := feeds[name := Allocated];
        feedTopics := feedTopics[name := topic.value];
        allocatedFeedTopics := allocatedFeedTopics[name := topic.value];
      } else if feeds[name] != Allocated {
        feeds := feeds[name := Allocated];
        allocatedFeedTopics := allocatedFeedTopics[name := feedTopics[name]];
      }
      raised := UpdateAllocationWeights(allocationWeights);
    }

    method RemoveFeed(name: Name, state: FeedState) returns (raised: bool)
      requires Structured(View())
      modifies this
      ensures Step(View(), raised) == Feeds.RemoveFeed(old(View()), name, state)
    {
      hide UpdateWeights, Distinct;
      if name !in feeds {
        return true;
      }
      feeds := feeds[name := state];
      allocatedFeedTopics := allocatedFeedTopics - {name};
      raised := UpdateAllocationWeights(allocationWeights);
    }

    method ChangeAllocStatus(name: Name, isAlloc: bool) returns (raised: bool)
      requires Structured(View())
      modifies this
      ensures Step(View(), raised) == Feeds.ChangeAllocStatus(old(View()), name, isAlloc)
    {
      hide UpdateWeights, Distinct;
      if name !in feeds {
        return false;
      }
      if isAlloc {
        feeds := feeds[name := Allocated];
        allocatedFeedTopics := allocatedFeedTopics[name := feedTopics[name]];
      } else {
        WithIndependentStructured(View(), name);
        feeds := feeds[name := Independent];
        if |allocatedFeedTopics| > 1 {
          allocatedFeedTopics := allocatedFeedTopics - {name};
        }
      }
      raised := UpdateAllocationWeights(allocationWeights);
    }

    /** The shares of one action: split by weight and, if the action is limited, run through the limit loop. */
    method AllocateKey(arrived: seq<Name>, actions: map<Name, Actions>, key: Key, patience: nat) returns (p: Pass, shares: seq<real>)
      requires LooksUp(arrived, actions, allocationWeights) && key in actions[arrived[0]]
      ensures p != GoOn ==> Limited(View(), arrived, actions, key) == Some(OutcomeOf(p, shares))
      ensures p == GoOn && Regular(View(), arrived, actions) ==> Limited(View(), arrived, actions, key) == None
    {
      var total := SumActions(arrived, actions, key);
      var ws := WeightsOf(arrived, allocationWeights);
      var raws := RawShares(total, ws);
      assert raws == Raws(View(), arrived, actions, key);
      hide RawShares, Raws, WeightsOf, Values, Sum;
      if key in actionLimits {
        var a := new real[|raws|](i requires 0 <= i < |raws| => raws[i]);
        assert a[..] == raws;
        p := RespectLimits(a, ws, actionLimits[key].0, actionLimits[key].1, patience);
        shares := a[..];
      } else {
        p, shares := Stop, raws;
      }
    }

    /**
     One allocation of the aggregated actions. order and topicOrder are the iteration orders of
     the aggregated actions and of the allocated topics. It publishes only if every lookup succeeds
     and the loop of every limited action exits; if no weight is negative, always then.
     */
    method AllocateActions(order: seq<Name>, actions: map<Name, Actions>, topicOrder: seq<Name>, patience: nat)
      returns (result: Allocating)
      requires forall f :: f in order ==> f in actions
      requires forall f :: f in topicOrder ==> f in allocatedFeedTopics
      modifies this`published
      ensures var t, arrived := old(View()), Arrived(order, allocatedFeedTopics);
        && AllocationResult(t, arrived, actions, result)
        && (LooksUp(arrived, actions, t.weights) && Regular(t, arrived, actions) ==> (result.Published? <==> AllExit(t, arrived, actions)))
        && View() == if result.Published? then t.(log := t.log + Publications(t, arrived, actions, topicOrder)) else t
    {
      hide Limited, Publications, SharesFor, AllExit, LooksUp, Arrived;
      var arrived := Arrived(order, allocatedFeedTopics);
      var found := FindsAll(arrived, actions);
      if !found {
        return Raised;
      }
      var limited: map<Key, seq<real>>;
      result, limited := AllocateKeys(arrived, actions, patience);
      SuccessIff(View(), arrived, actions, result);
      if result == Published {
        PublishShares(arrived, actions, topicOrder, limited);
      }
    }

    method FindsAll(arrived: seq<Name>, actions: map<Name, Actions>) returns (found: bool)
      requires forall f :: f in arrived ==> f in actions
      ensures found <==> LooksUp(arrived, actions, allocationWeights)
      ensures found <==>
        && arrived != []
        && (forall f, key :: f in arrived && key in actions[arrived[0]] ==> key in actions[f])
        && (forall f, key :: f in arrived && key in actions[arrived[0]] ==> f in allocationWeights)
    {
      found := arrived != []
        && (forall f :: f in arrived ==> actions[arrived[0]].Keys <= actions[f].Keys)
        && (actions[arrived[0]] != map[] ==> forall f :: f in arrived ==> f in allocationWeights);
    }

    method AllocateKeys(arrived: seq<Name>, actions: map<Name, Actions>, patience: nat)
      returns (result: Allocating, limited: map<Key, seq<real>>)
      requires LooksUp(arrived, actions, allocationWeights)
      ensures AllocationResult(View(), arrived, actions, result)
      ensures result.Published? ==> limited.Keys == actions[arrived[0]].Keys
      ensures result.Published? ==>
        forall key :: key in limited ==> limited[key] == Limited(View(), arrived, actions, key).value.values
    {
      hide Limited, Regular;
      var rest := actions[arrived[0]].Keys;
      limited := map[];
      while rest != {}
        invariant rest <= actions[arrived[0]].Keys && limited.Keys == actions[arrived[0]].Keys - rest
        invariant forall key :: key in limited ==> Exits(Limited(View(), arrived, actions, key))
        invariant forall key :: key in limited ==> limited[key] == Limited(View(), arrived, actions, key).value.values
        decreases |rest|
      {
        var key :| key in rest;
        var p, shares := AllocateKey(arrived, actions, key, patience);
        if p == DivideByZero {
          assert !Exits(Limited(View(), arrived, actions, key));
          return Raised, map[];
        }
        if p == GoOn {
          return Unfinished, map[];
        }
        limited := limited[key := shares];
        rest := rest - {key};
      }
      return Published, limited;
    }

    method PublishShares(arrived: seq<Name>, actions: map<Name, Actions>, topicOrder: seq<Name>, limited: map<Key, seq<real>>)
      requires LooksUp(arrived, actions, allocationWeights) && limited.Keys == actions[arrived[0]].Keys
      requires AllExit(View(), arrived, actions)
      requires forall key :: key in limited ==> limited[key] == Limited(View(), arrived, actions, key).value.values
      requires forall f :: f in topicOrder ==> f in allocatedFeedTopics
      modifies this`published
      ensures LooksUp(arrived, actions, old(View()).weights) && AllExit(old(View()), arrived, actions)
      ensures View() == old(View()).(log := old(published) + Publications(old(View()), arrived, actions, topicOrder))
    {
      hide LooksUp;
      ghost var t := View();
      assert forall key :: key in limited ==> Limited(t, arrived, actions, key).Some?;
      hide Limited, AllExit;
      for i := 0 to |topicOrder|
        invariant published == t.log + Publications(t, arrived, actions, topicOrder[..i])
      {
        var f := topicOrder[i];
        assert topicOrder[..i + 1] == topicOrder[..i] + [f];
        if f in arrived {
          var mine := map key | key in limited :: limited[key][IndexOf(arrived, f)];
          assert mine == SharesFor(t, arrived, actions, f);
          published := published + [ToFeed(f, allocatedFeedTopics[f], mine)];
        }
      }
      assert topicOrder[..|topicOrder|] == topicOrder;
    }

    method UpdateActionLimits(bounds: map<Key, (real, real)>)
      modifies this`actionLimits
      ensures View() == UpdateLimits(old(View()), bounds)
    {
      if BITRATE in bounds {
        actionLimits := actionLimits[BITRATE := bounds[BITRATE]];
      }
    }

    method HandleAction(name: Name, action: Action) returns (raised: bool)
      requires Structured(View()) && (name in feeds || action.TurnOn?)
      modifies this
      ensures Step(View(), raised) == Apply(old(View()), name, action)
      ensures Structured(View())
    {
      ApplyStructured(View(), name, action);
      TurnOnIs(View(), name, action);
      hide Feeds.AddFeed, Apply, Structured;
      raised := false;
      match action {
        case Relay(key, sent) => PassToConnector(name, key, sent);
        case MaxBitrate(v) => raised := SetMaximum(name, v);
        case Alloc(flag) => raised := SwitchAlloc(name, flag);
        case Manually(flag) => raised := SwitchManual(name, flag);
        case TurnOff(flag) => raised := TurnOffFeed(name, flag);
        case TurnOn(topic) => raised := AddFeed(name, topic);
        case UnknownAction =>
      }
    }

    method PassToConnector(name: Name, key: Key, sent: Json)
      requires Structured(View()) && name in feeds
      modifies this`published
      ensures Step(View(), false) == Apply(old(View()), name, Relay(key, sent))
    {
      published := published + [ToConnector(name, feedTopics[name], key, sent)];
      hide Structured;
    }

    method SwitchManual(name: Name, flag: bool) returns (raised: bool)
      requires Structured(View()) && name in feeds
      modifies this
      ensures Step(View(), raised) == Apply(old(View()), name, Manually(flag))
    {
      hide Feeds.AddFeed, Feeds.RemoveFeed, Structured;
      if flag { raised := RemoveFeed(name, Manual); } else { raised := AddFeed(name, None); }
    }

    method SetMaximum(name: Name, v: real) returns (raised: bool)
      requires Structured(View()) && name in feeds
      modifies this`actionLimits
      ensures Step(View(), raised) == Apply(old(View()), name, MaxBitrate(v))
    {
      hide Structured;
      if BITRATE in actionLimits {
        if BITRATE !in initActionLimits {
          return true;
        }
        UpdateActionLimits(map[BITRATE := (initActionLimits[BITRATE].0, v)]);
      }
      return false;
    }

    method SwitchAlloc(name: Name, flag: bool) returns (raised: bool)
      requires Structured(View()) && name in feeds
      modifies this
      ensures Step(View(), raised) == Apply(old(View()), name, Alloc(flag))
    {
      hide Feeds.ChangeAllocStatus, Structured;
      raised := false;
      if flag {
        if feeds[name] == Independent { raised := ChangeAllocStatus(name, flag); }
      } else {
        if feeds[name] == Allocated { raised := ChangeAllocStatus(name, flag); }
      }
    }

    method TurnOffFeed(name: Name, flag: bool) returns (raised: bool)
      requires Structured(View()) && name in feeds
      modifies this
      ensures Step(View(), raised) == Apply(old(View()), name, TurnOff(flag))
    {
      TurnOffIs(View(), name, flag);
      hide Feeds.RemoveFeed, Structured, Apply;
      if flag {
        published := published + [ToConnector(name, feedTopics[name], OFF, TRUE)];
      }
      raised := RemoveFeed(name, Off);
    }

    /** One entry of a controller message, as the controller coroutine handles it. */
    method HandleCommand(command: Command) returns (raised: bool)
      requires Structured(View())
      modifies this
      ensures Step(View(), raised) == Execute(old(View()), command)
      ensures Structured(View())
    {
      match command {
        case ForFeed(name, actions) => raised := HandleActions(name, actions);
        case ForAll(generals) => raised := HandleGenerals(generals);
      }
    }

    method HandleActions(name: Name, actions: seq<Action>) returns (raised: bool)
      requires Structured(View())
      modifies this
      ensures Step(View(), raised) == ApplyAll(old(View()), name, actions)
      ensures Structured(View())
    {
      hide Apply, Structured;
      ghost var whole := ApplyAll(View(), name, actions);
      assert actions[0..] == actions;
      for i := 0 to |actions|
        invariant Structured(View()) && whole == ApplyAll(View(), name, actions[i..])
      {
        assert actions[i..][0] == actions[i] && actions[i..][1..] == actions[i + 1..];
        if name !in feeds && !actions[i].TurnOn? {
          return false;
        }
        raised := HandleAction(name, actions[i]);
        if raised {
          return;
        }
      }
      return false;
    }

    method HandleGenerals(generals: seq<General>) returns (raised: bool)
      requires Structured(View())
      modifies this
      ensures Step(View(), raised) == ApplyGenerals(old(View()), generals)
      ensures Structured(View())
    {
      hide UpdateWeights, Structured;
      ghost var whole := ApplyGenerals(View(), generals);
      assert generals[0..] == generals;
      for i := 0 to |generals|
        invariant Structured(View()) && whole == ApplyGenerals(View(), generals[i..])
      {
        assert generals[i..][0] == generals[i] && generals[i..][1..] == generals[i + 1..];
        raised := false;
        GeneralStructured(View(), generals[i]);
        match generals[i] {
          case Weights(given) => raised := UpdateAllocationWeights(given);
          case Limits(bounds) => UpdateActionLimits(bounds);
          case UnknownGeneral =>
        }
        if raised {
          return;
        }
      }
      return false;
    }
  }

  /** What the arrived feeds ask for under one key, added up in order of arrival. */
  method SumActions(arrived: seq<Name>, actions: map<Name, Actions>, key: Key) returns (total: real)
    requires forall f :: f in arrived ==> f in actions && key in actions[f]
    ensures total == Sum(Values(arrived, actions, key))
    ensures Distinct(arrived) ==> total == SumOf(Requested(arrived, actions, key))
  {
    if Distinct(arrived) {
      RequestedTotal(arrived, actions, key);
    }
    total := 0.0;
    ghost var vs := Values(arrived, actions, key);
    for i := 0 to |arrived|
      invariant total == Sum(vs[..i])
    {
      assert arrived[i] in arrived;
      total := total + actions[arrived[i]][key];
      assert vs[..i + 1] == vs[..i] + [vs[i]];
      SumSnoc(vs[..i], vs[i]);
    }
    assert vs[..|arrived|] == vs;
  }

  function Members(order: seq<Name>): set<Name>
  {
    set f | f in order
  }

  lemma BeforeFirst(order: seq<Name>, alloc: map<Name, Topic>, given: map<Name, real>)
    ensures Members(order[..0]) == {} && LastMissing(order[..0], alloc, given) == NO_FEED
  {
  }

  lemma VisitNext(t: Table, i: nat, given: map<Name, real>)
    requires Structured(t) && i < |t.order|
    ensures t.order[i] !in Members(t.order[..i]) && t.order[i] in t.feeds
    ensures Members(t.order[..i + 1]) == Members(t.order[..i]) + {t.order[i]}
    ensures var f := t.order[i];
      LastMissing(t.order[..i + 1], t.alloc, given)
        == if f in t.alloc && f !in given then f else LastMissing(t.order[..i], t.alloc, given)
  {
    var f := t.order[i];
    assert t.order[..i + 1] == t.order[..i] + [f];
    assert f in (set g | g in t.order);
  }

  lemma AfterLast(t: Table)
    requires Structured(t)
    ensures t.order[..|t.order|] == t.order && Members(t.order) == t.feeds.Keys
  {
  }

  lemma GeneralStructured(t: Table, general: General)
    requires Structured(t)
    ensures Structured(ApplyGeneral(t, general).table)
  {
  }

  lemma InitialFits(t: Table, topics: map<Name, Topic>, weights: map<Name, real>)
    requires t.topics == t.alloc == topics && t.feeds == (map f | f in topics :: Allocated)
    requires Distinct(t.order) && (set f | f in t.order) == topics.Keys
    requires t.weights == if weights == map[] then map f | f in topics :: EqualPart(|topics|) else weights
    ensures Structured(t) && Statuses(t)
    ensures weights == map[] || (weights.Keys == topics.Keys && SumOf(weights) == 1.0) ==> WeightsFit(t)
    ensures weights == map[] ==> AllEqual(t.weights)
  {
    InitialStates(t, topics);
    hide SumOf, EqualPart, Structured, Statuses, Distinct;
    if weights == map[] {
      UniformFits(topics, t.weights);
    } else if weights.Keys == topics.Keys {
      assert topics.Keys != {};
    }
  }

  lemma InitialStates(t: Table, topics: map<Name, Topic>)
    requires t.topics == t.alloc == topics && t.feeds == (map f | f in topics :: Allocated)
    requires Distinct(t.order) && (set f | f in t.order) == topics.Keys
    ensures Structured(t) && Statuses(t)
  {
    hide Distinct;
  }

  lemma UniformFits(topics: map<Name, Topic>, weights: map<Name, real>)
    requires weights.Keys == topics.Keys && forall f :: f in topics ==> weights[f] == EqualPart(|topics|)
    ensures topics != map[] ==> SumOf(weights) == 1.0
    ensures AllEqual(weights)
  {
    if topics != map[] {
      EqualSum(weights, EqualPart(|topics|));
      assert |weights.Keys| == |topics.Keys| == |topics|;
      assert topics.Keys != {};
      TimesPart(|topics|, 1.0);
    }
  }

  lemma EvenedIs(m: map<Name, real>, n: nat, c: real)
    requires n > 0 && c == (1.0 - SumOf(m)) / n as real
    ensures Evened(m, n) == Shifted(m, c)
  {
  }

  lemma PassFinished(m: map<Name, real>, weights: map<Name, real>, alloc: map<Name, Topic>, given: map<Name, real>, order: seq<Name>)
    requires PassedOver(m, weights, alloc, Members(order), given)
    ensures m == Assigned(weights, alloc, Members(order), given)
    ensures var r := LastMissing(order, alloc, given); r != NO_FEED ==> r in m
  {
    LastMissingIsMissing(order, alloc, given);
  }
}
