/**
 The feed table of the controller as a value: feed states, topics, the allocated feeds, their
 weights and the action limits, and what every command does to them.
 */
module Feeds {
  import opened Options
  import opened Sums

  datatype Name = Name(id: string)
  datatype Topic = Topic(path: string)
  datatype Key = Key(id: string)

  /** The text of a value that is passed on as it came. */
  datatype Json = Json(text: string)

  datatype FeedState = Allocated | Independent | Manual | Off

  /** A message the controller sent; to is the feed whose topic it went to. */
  datatype Publication =
    | ToConnector(to: Name, topic: Topic, key: Key, sent: Json)          // relayed or off command
    | ToFeed(to: Name, topic: Topic, actions: map<Key, real>)            // allocated or mapped action

  datatype Table = Table(
    order: seq<Name>,              // insertion order of feeds
    feeds: map<Name, FeedState>,
    topics: map<Name, Topic>,
    alloc: map<Name, Topic>,
    weights: map<Name, real>,
    initLimits: map<Key, (real, real)>,
    limits: map<Key, (real, real)>,
    log: seq<Publication>)

  /** One action for a named feed. */
  datatype Action =
    | Relay(key: Key, sent: Json)     // bitrate, resolution, framerate, fec, preset, switch, ...
    | MaxBitrate(value: real)
    | Alloc(flag: bool)
    | Manually(flag: bool)
    | TurnOff(flag: bool)
    | TurnOn(topic: Option<Topic>)
    | UnknownAction

  datatype General =
    | Weights(given: map<Name, real>)
    | Limits(bounds: map<Key, (real, real)>)
    | UnknownGeneral

  /** One entry of a controller message: actions for one feed, or for all. */
  datatype Command =
    | ForFeed(name: Name, actions: seq<Action>)
    | ForAll(generals: seq<General>)

  /** The table a call leaves behind, and whether it left by raising. */
  datatype Step = Step(table: Table, raised: bool)

  const BITRATE := Key("bitrate")
  const OFF := Key("off")
  const TRUE := Json("true")

  /** What new_feed starts as; a feed of that name cannot be told from no feed. */
  const NO_FEED := Name("")

  // ----- the structure every table has -----

  ghost predicate Distinct(order: seq<Name>)
  {
    forall i, j :: 0 <= i < j < |order| ==> order[i] != order[j]
  }

  ghost predicate Structured(t: Table)
  {
    && Distinct(t.order)
    && (set f | f in t.order) == t.feeds.Keys
    && t.topics.Keys == t.feeds.Keys
    && (forall f :: f in t.alloc ==> f in t.feeds && t.alloc[f] == t.topics[f])
  }

  // ----- weights -----

  /** The last allocated feed, in feed order, without a given weight; NO_FEED when there is none. */
  function LastMissing(order: seq<Name>, alloc: map<Name, Topic>, given: map<Name, real>): Name
  {
    if order == [] then NO_FEED
    else
      var f := order[|order| - 1];
      if f in alloc && f !in given then f else LastMissing(order[..|order| - 1], alloc, given)
  }

  /** After the pass over the feeds: given weights, 0.0 where none is given, nothing for dropped feeds. */
  function Assigned(weights: map<Name, real>, alloc: map<Name, Topic>, feeds: set<Name>, given: map<Name, real>): map<Name, real>
  {
    map f | f in weights.Keys + alloc.Keys * feeds && !(f in feeds && f !in alloc && f in given)
      :: if f in feeds && f in alloc then (if f in given then given[f] else 0.0) else weights[f]
  }

  function Shifted(m: map<Name, real>, c: real): map<Name, real>
  {
    map f | f in m :: m[f] + c
  }

  function EqualPart(n: nat): real
    requires n > 0
  {
    1.0 / n as real
  }

  /** What each of the other n - 1 feeds pays for the n-th one. */
  function Contribution(n: nat): real
    requires n > 1
  {
    EqualPart(n) / (n - 1) as real
  }

  /** newest gets an equal part; the others pay for it in equal amounts. */
  function WithRoomFor(m: map<Name, real>, newest: Name, n: nat): map<Name, real>
    requires n > 1
  {
    map f | f in m :: if f == newest then EqualPart(n) else m[f] - Contribution(n)
  }

  /** What the sum lacks to one, in equal parts. */
  ghost function Evened(m: map<Name, real>, n: nat): map<Name, real>
    requires n > 0
  {
    Shifted(m, (1.0 - SumOf(m)) / n as real)
  }

  datatype WeightStep = WeightStep(weights: map<Name, real>, raised: bool)

  ghost function NewWeights(t: Table, given: map<Name, real>): WeightStep
  {
    if t.alloc == map[] || SumOf(given) > 1.0 then WeightStep(t.weights, false)
    else
      var m := Assigned(t.weights, t.alloc, t.feeds.Keys, given);
      var n := |t.alloc|;
      var newest := LastMissing(t.order, t.alloc, given);
      if newest == NO_FEED then WeightStep(Evened(m, n), false)
      else if n == 1 then WeightStep(m[newest := 1.0], true)  // ZeroDivisionError
      else WeightStep(WithRoomFor(m, newest, n), false)
  }

  ghost function UpdateWeights(t: Table, given: map<Name, real>): Step
  {
    var w := NewWeights(t, given);
    Step(t.(weights := w.weights), w.raised)
  }

  // ----- feeds -----

  function WithNewFeed(t: Table, name: Name, topic: Topic): Table
  {
    t.(order := t.order + [name], feeds := t.feeds[name := Allocated],
       topics := t.topics[name := topic], alloc := t.alloc[name := topic])
  }

  function WithAllocated(t: Table, name: Name): Table
    requires name in t.topics
  {
    t.(feeds := t.feeds[name := Allocated], alloc := t.alloc[name := t.topics[name]])
  }

  /** The last feed stays in the allocated set although its state is Independent. */
  function WithIndependent(t: Table, name: Name): Table
  {
    t.(feeds := t.feeds[name := Independent], alloc := if |t.alloc| > 1 then t.alloc - {name} else t.alloc)
  }

  function WithOffNotice(t: Table, name: Name, flag: bool): Table
    requires name in t.topics
  {
    if flag then t.(log := t.log + [ToConnector(name, t.topics[name], OFF, TRUE)]) else t
  }

  ghost function AddFeed(t: Table, name: Name, topic: Option<Topic>): Step
    requires Structured(t)
  {
    if name !in t.feeds then
      if topic.None? then Step(t, true)
      else
        var t' := WithNewFeed(t, name, topic.value);
        UpdateWeights(t', t'.weights)
    else
      var t' := if t.feeds[name] == Allocated then t else WithAllocated(t, name);
      UpdateWeights(t', t'.weights)
  }

  ghost function RemoveFeed(t: Table, name: Name, state: FeedState): Step
    requires Structured(t)
  {
    if name !in t.feeds then Step(t, true)
    else
      var t' := t.(feeds := t.feeds[name := state], alloc := t.alloc - {name});
      UpdateWeights(t', t'.weights)
  }

  ghost function ChangeAllocStatus(t: Table, name: Name, isAlloc: bool): Step
    requires Structured(t)
  {
    if name !in t.feeds then Step(t, false)
    else
      var t' := if isAlloc then WithAllocated(t, name) else WithIndependent(t, name);
      UpdateWeights(t', t'.weights)
  }

  /** Only the bitrate limits can be changed. */
  function UpdateLimits(t: Table, bounds: map<Key, (real, real)>): Table
  {
    if BITRATE in bounds then t.(limits := t.limits[BITRATE := bounds[BITRATE]]) else t
  }

  // ----- commands -----

  ghost function Apply(t: Table, name: Name, action: Action): Step
    requires Structured(t) && (name in t.feeds || action.TurnOn?)
  {
    match action
    case Relay(key, sent) => Step(t.(log := t.log + [ToConnector(name, t.topics[name], key, sent)]), false)
    case MaxBitrate(v) =>
      if BITRATE in t.limits && BITRATE in t.initLimits
      then Step(UpdateLimits(t, map[BITRATE := (t.initLimits[BITRATE].0, v)]), false)
      else Step(t, BITRATE in t.limits)
    case Alloc(flag) =>
      if t.feeds[name] == (if flag then Independent else Allocated) then ChangeAllocStatus(t, name, flag)
      else Step(t, false)
    case Manually(flag) => if flag then RemoveFeed(t, name, Manual) else AddFeed(t, name, None)
    case TurnOff(flag) => RemoveFeed(WithOffNotice(t, name, flag), name, Off)
    case TurnOn(topic) => AddFeed(t, name, topic)
    case UnknownAction => Step(t, false)
  }

  lemma UpdateWeightsStructured(t: Table, given: map<Name, real>)
    requires Structured(t)
    ensures Structured(UpdateWeights(t, given).table)
  {
  }

  lemma NewFeedStructured(t: Table, name: Name, topic: Topic)
    requires Structured(t) && name !in t.feeds
    ensures Structured(WithNewFeed(t, name, topic))
  {
  }

  lemma AddFeedStructured(t: Table, name: Name, topic: Option<Topic>)
    requires Structured(t)
    ensures Structured(AddFeed(t, name, topic).table)
  {
    hide UpdateWeights, Distinct;
    if name !in t.feeds {
      if topic.Some? {
        NewFeedStructured(t, name, topic.value);
        hide WithNewFeed, Structured;
        var t' := WithNewFeed(t, name, topic.value);
        UpdateWeightsStructured(t', t'.weights);
      }
    } else {
      var t' := if t.feeds[name] == Allocated then t else WithAllocated(t, name);
      UpdateWeightsStructured(t', t'.weights);
    }
  }

  lemma RemoveFeedStructured(t: Table, name: Name, state: FeedState)
    requires Structured(t)
    ensures Structured(RemoveFeed(t, name, state).table)
  {
  }

  lemma WithIndependentStructured(t: Table, name: Name)
    requires Structured(t) && name in t.feeds
    ensures Structured(WithIndependent(t, name))
  {
  }

  lemma ChangeAllocStatusStructured(t: Table, name: Name, isAlloc: bool)
    requires Structured(t)
    ensures Structured(ChangeAllocStatus(t, name, isAlloc).table)
  {
    hide UpdateWeights, Distinct;
    if name in t.feeds {
      if isAlloc {
        UpdateWeightsStructured(WithAllocated(t, name), t.weights);
      } else {
        WithIndependentStructured(t, name);
        hide WithIndependent, Structured;
        UpdateWeightsStructured(WithIndependent(t, name), WithIndependent(t, name).weights);
      }
    }
  }

  lemma ApplyStructured(t: Table, name: Name, action: Action)
    requires Structured(t) && (name in t.feeds || action.TurnOn?)
    ensures Structured(Apply(t, name, action).table)
  {
    hide AddFeed, RemoveFeed, ChangeAllocStatus, Distinct;
    match action
    case TurnOn(topic) => AddFeedStructured(t, name, topic);
    case Manually(flag) =>
      AddFeedStructured(t, name, None);
      RemoveFeedStructured(t, name, Manual);
    case TurnOff(flag) =>
      RemoveFeedStructured(WithOffNotice(t, name, flag), name, Off);
    case Alloc(flag) => ChangeAllocStatusStructured(t, name, flag);
    case _ =>
  }

  lemma NoticeStructured(t: Table, name: Name)
    requires Structured(t)
    ensures name in t.feeds ==> name in t.topics && Structured(WithOffNotice(t, name, true)) && Structured(WithOffNotice(t, name, false))
  {
  }

  lemma TurnOnIs(t: Table, name: Name, action: Action)
    requires Structured(t) && (name in t.feeds || action.TurnOn?)
    ensures action.TurnOn? ==> Apply(t, name, action) == AddFeed(t, name, action.topic)
    ensures action.UnknownAction? ==> Apply(t, name, action) == Step(t, false)
  {
    hide AddFeed, Structured;
  }

  lemma TurnOffIs(t: Table, name: Name, flag: bool)
    requires Structured(t) && name in t.feeds
    ensures name in t.topics && Structured(WithOffNotice(t, name, flag))
    ensures Apply(t, name, TurnOff(flag)) == RemoveFeed(WithOffNotice(t, name, flag), name, Off)
  {
    NoticeStructured(t, name);
    hide RemoveFeed, Structured;
  }

  /** The actions of one feed in order, up to the first one the feed is unknown to or that raises. */
  ghost function ApplyAll(t: Table, name: Name, actions: seq<Action>): Step
    requires Structured(t)
    decreases actions
  {
    if actions == [] || (name !in t.feeds && !actions[0].TurnOn?) then Step(t, false)
    else
      var s := Apply(t, name, actions[0]);
      ApplyStructured(t, name, actions[0]);
      if s.raised then s else ApplyAll(s.table, name, actions[1..])
  }

  ghost function ApplyGeneral(t: Table, general: General): Step
  {
    match general
    case Weights(given) => UpdateWeights(t, given)
    case Limits(bounds) => Step(UpdateLimits(t, bounds), false)
    case UnknownGeneral => Step(t, false)
  }

  ghost function ApplyGenerals(t: Table, generals: seq<General>): Step
    decreases generals
  {
    if generals == [] then Step(t, false)
    else
      var s := ApplyGeneral(t, generals[0]);
      if s.raised then s else ApplyGenerals(s.table, generals[1..])
  }

  ghost function Execute(t: Table, command: Command): Step
    requires Structured(t)
  {
    match command
    case ForFeed(name, actions) => ApplyAll(t, name, actions)
    case ForAll(generals) => ApplyGenerals(t, generals)
  }
}
