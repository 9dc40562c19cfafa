/** What every run of controller commands keeps true of the feed table. */
module FeedInvariants {
  import opened Options
  import opened Feeds

  // ----- feed states -----

  /** Allocated feeds are in the allocated set, manual and switched-off ones are not, and at most one independent feed is. */
  ghost predicate Statuses(t: Table)
  {
    StatusesOf(t.feeds, t.alloc)
  }

  ghost predicate StatusesOf(feeds: map<Name, FeedState>, alloc: map<Name, Topic>)
  {
    && alloc.Keys <= feeds.Keys
    && (forall f :: f in feeds && feeds[f] == Allocated ==> f in alloc)
    && (forall f :: f in alloc ==> feeds[f] == Allocated || feeds[f] == Independent)
    && (forall f, g :: f in alloc && g in alloc && feeds[f] == feeds[g] == Independent ==> f == g)
  }

  lemma AtMostOneKey<K, V>(m: map<K, V>, k: K)
    requires |m| <= 1 && k in m
    ensures m.Keys == {k}
  {
    if j :| j in m && j != k {
      assert {j, k} <= m.Keys;
      CardinalityMonotone({j, k}, m.Keys);
    }
  }

  lemma {:induction false} CardinalityMonotone<T>(a: set<T>, b: set<T>)
    requires a <= b
    ensures |a| <= |b|
    decreases a
  {
    if a != {} {
      var x :| x in a;
      CardinalityMonotone(a - {x}, b - {x});
    }
  }

  lemma AllocatedKeepsStatuses(feeds: map<Name, FeedState>, alloc: map<Name, Topic>, f: Name, topic: Topic)
    requires StatusesOf(feeds, alloc)
    ensures StatusesOf(feeds[f := Allocated], alloc[f := topic])
  {
  }

  lemma RemovedKeepsStatuses(feeds: map<Name, FeedState>, alloc: map<Name, Topic>, f: Name, state: FeedState)
    requires StatusesOf(feeds, alloc) && state != Allocated
    ensures StatusesOf(feeds[f := state], alloc - {f})
  {
  }

  lemma IndependentKeepsStatuses(t: Table, f: Name)
    requires Statuses(t) && f in t.feeds && t.feeds[f] == Allocated
    ensures Statuses(WithIndependent(t, f))
  {
    if |t.alloc| > 1 {
      RemovedKeepsStatuses(t.feeds, t.alloc, f, Independent);
    } else {
      AtMostOneKey(t.alloc, f);
    }
  }

  lemma AddFeedKeepsStatuses(t: Table, name: Name, topic: Option<Topic>)
    requires Structured(t) && Statuses(t)
    ensures Statuses(AddFeed(t, name, topic).table)
  {
    hide NewWeights, StatusesOf, Distinct;
    if name !in t.feeds {
      if topic.Some? { AllocatedKeepsStatuses(t.feeds, t.alloc, name, topic.value); }
    } else {
      AllocatedKeepsStatuses(t.feeds, t.alloc, name, t.topics[name]);
    }
  }

  lemma RemoveFeedKeepsStatuses(t: Table, name: Name, state: FeedState)
    requires Structured(t) && Statuses(t) && state != Allocated
    ensures Statuses(RemoveFeed(t, name, state).table)
  {
  }

  lemma AllocKeepsStatuses(t: Table, name: Name, flag: bool)
    requires Structured(t) && Statuses(t) && name in t.feeds
    ensures Statuses(Apply(t, name, Alloc(flag)).table)
  {
    hide NewWeights, StatusesOf, Distinct, WithIndependent;
    AllocatedKeepsStatuses(t.feeds, t.alloc, name, t.topics[name]);
    if t.feeds[name] == Allocated {
      IndependentKeepsStatuses(t, name);
    }
  }

  lemma ApplyKeepsStatuses(t: Table, name: Name, action: Action)
    requires Structured(t) && Statuses(t) && (name in t.feeds || action.TurnOn?)
    ensures Statuses(Apply(t, name, action).table)
  {
    hide AddFeed, RemoveFeed, StatusesOf, Distinct;
    match action
    case Alloc(flag) => AllocKeepsStatuses(t, name, flag);
    case TurnOn(topic) => AddFeedKeepsStatuses(t, name, topic);
    case Manually(flag) =>
      AddFeedKeepsStatuses(t, name, None);
      RemoveFeedKeepsStatuses(t, name, Manual);
    case TurnOff(flag) => RemoveFeedKeepsStatuses(WithOffNotice(t, name, flag), name, Off);
    case _ =>
  }

  /** Making feeds allocated or independent never leaves the allocated set empty. */
  lemma AllocNeverEmpties(t: Table, name: Name, flag: bool)
    requires Structured(t) && name in t.feeds && t.alloc != map[]
    ensures Apply(t, name, Alloc(flag)).table.alloc != map[]
  {
    hide NewWeights, Distinct;
    var t' := Apply(t, name, Alloc(flag)).table;
    if |t.alloc| > 1 {
      if t.alloc.Keys <= {name} {
        CardinalityMonotone(t.alloc.Keys, {name});
      }
      var other :| other in t.alloc && other != name;
      assert other in t'.alloc;
    } else {
      var f :| f in t.alloc;
      assert f in t'.alloc;
    }
  }

  ghost predicate SameLimits(t: Table, t': Table)
  {
    t'.initLimits == t.initLimits && t'.limits == t.limits
  }

  lemma AddFeedKeepsLimits(t: Table, name: Name, topic: Option<Topic>)
    requires Structured(t)
    ensures SameLimits(t, AddFeed(t, name, topic).table)
  {
    hide NewWeights, Distinct;
  }

  lemma RemoveFeedKeepsLimits(t: Table, name: Name, state: FeedState)
    requires Structured(t)
    ensures SameLimits(t, RemoveFeed(t, name, state).table)
  {
  }

  lemma ChangeAllocKeepsLimits(t: Table, name: Name, isAlloc: bool)
    requires Structured(t)
    ensures SameLimits(t, ChangeAllocStatus(t, name, isAlloc).table)
  {
  }

  /** Only a maximum bitrate touches the limits. */
  lemma ApplyKeepsOtherLimits(t: Table, name: Name, action: Action)
    requires Structured(t) && (name in t.feeds || action.TurnOn?)
    ensures var t' := Apply(t, name, action).table;
      t'.initLimits == t.initLimits && (!action.MaxBitrate? ==> SameLimits(t, t'))
  {
    hide AddFeed, RemoveFeed, ChangeAllocStatus, Distinct;
    match action
    case TurnOn(topic) => AddFeedKeepsLimits(t, name, topic);
    case Manually(flag) =>
      AddFeedKeepsLimits(t, name, None);
      RemoveFeedKeepsLimits(t, name, Manual);
    case TurnOff(flag) => RemoveFeedKeepsLimits(WithOffNotice(t, name, flag), name, Off);
    case Alloc(flag) => ChangeAllocKeepsLimits(t, name, flag);
    case _ =>
  }

  // ----- runs -----

  ghost function Run(t: Table, commands: seq<Command>): Step
    requires Structured(t)
    decreases commands
  {
    if commands == [] then Step(t, false)
    else
      var s := Execute(t, commands[0]);
      ExecuteStructured(t, commands[0]);
      if s.raised then s else Run(s.table, commands[1..])
  }

  lemma {:induction false} ApplyAllStructured(t: Table, name: Name, actions: seq<Action>)
    requires Structured(t)
    ensures Structured(ApplyAll(t, name, actions).table)
    decreases actions
  {
    hide Apply, Structured;
    if !(actions == [] || (name !in t.feeds && !actions[0].TurnOn?)) {
      ApplyStructured(t, name, actions[0]);
      var s := Apply(t, name, actions[0]);
      if !s.raised { ApplyAllStructured(s.table, name, actions[1..]); }
    }
  }

  /** Commands to all feeds touch only weights and limits. */
  lemma {:induction false} GeneralsKeepFeeds(t: Table, generals: seq<General>)
    ensures var t' := ApplyGenerals(t, generals).table;
      t' == t.(weights := t'.weights, limits := t'.limits)
    decreases generals
  {
    hide NewWeights;
    if generals != [] {
      var s := ApplyGeneral(t, generals[0]);
      if !s.raised { GeneralsKeepFeeds(s.table, generals[1..]); }
    }
  }

  lemma ExecuteStructured(t: Table, command: Command)
    requires Structured(t)
    ensures Structured(Execute(t, command).table)
  {
    match command
    case ForFeed(name, actions) => ApplyAllStructured(t, name, actions);
    case ForAll(generals) =>
      hide ApplyGenerals, Distinct;
      GeneralsKeepFeeds(t, generals);
  }

  lemma {:induction false} ApplyAllKeepsStatuses(t: Table, name: Name, actions: seq<Action>)
    requires Structured(t) && Statuses(t)
    ensures Statuses(ApplyAll(t, name, actions).table)
    decreases actions
  {
    hide Apply, Structured, Statuses;
    if !(actions == [] || (name !in t.feeds && !actions[0].TurnOn?)) {
      ApplyStructured(t, name, actions[0]);
      ApplyKeepsStatuses(t, name, actions[0]);
      var s := Apply(t, name, actions[0]);
      if !s.raised { ApplyAllKeepsStatuses(s.table, name, actions[1..]); }
    }
  }

  /** In every state a run of commands reaches, also where it ends by raising. */
  lemma {:induction false} RunKeepsStatuses(t: Table, commands: seq<Command>)
    requires Structured(t) && Statuses(t)
    ensures Structured(Run(t, commands).table) && Statuses(Run(t, commands).table)
    decreases commands
  {
    hide Structured, Statuses, ApplyAll, ApplyGenerals;
    if commands != [] {
      ExecuteStructured(t, commands[0]);
      ExecuteKeepsStatuses(t, commands[0]);
      var s := Execute(t, commands[0]);
      if !s.raised { RunKeepsStatuses(s.table, commands[1..]); }
    }
  }

  lemma ExecuteKeepsStatuses(t: Table, command: Command)
    requires Structured(t) && Statuses(t)
    ensures Statuses(Execute(t, command).table)
  {
    match command
    case ForFeed(name, actions) => ApplyAllKeepsStatuses(t, name, actions);
    case ForAll(generals) =>
      hide ApplyGenerals, Distinct;
      GeneralsKeepFeeds(t, generals);
  }
}
