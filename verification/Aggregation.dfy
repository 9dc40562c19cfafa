/**
 Collecting one action from every allocated feed in bounded time. The clock, the scheduler and
 what other coroutines do to the feed table between two messages are given turn by turn.
 */
module Aggregation {
  import opened Options
  import opened Feeds

  /** The decoded content of a message: a dictionary of actions, or anything else. */
  datatype Payload = Dict(actions: map<Key, real>) | NotADict

  datatype Message = Message(id: string, payload: Payload)

  /**
   What happens in one turn of the loop. At its head the table is head and the allocated set
   decides whether to go on. The queue is seen non-empty after tick i if ready(i); tick i takes
   lateness(i) longer than asked for and handling the message takes busy. When the message is
   taken from the queue, the table is table, and allocOrder and feedOrder are the iteration
   orders of its allocated topics and of all its topics.
   */
  datatype Turn = Turn(head: Table, ready: nat -> bool, lateness: nat -> real, busy: real,
                       message: Message, table: Table, allocOrder: seq<Name>, feedOrder: seq<Name>)

  ghost predicate ClockRunsOn(turn: Turn)
  {
    turn.busy >= 0.0 && forall i :: turn.lateness(i) >= 0.0
  }

  ghost predicate OrdersMatch(turn: Turn)
  {
    && (forall f :: f in turn.allocOrder <==> f in turn.table.alloc)
    && (forall f :: f in turn.feedOrder <==> f in turn.table.topics)
    && turn.table.topics.Keys == turn.table.feeds.Keys
  }

  // ----- waiting -----

  function Intervals(timeWait: real): int
  {
    (timeWait / 0.1).Floor
  }

  /** The first of n ticks at whose end the condition holds. */
  function FirstReady(ready: nat -> bool, n: nat): (r: Option<nat>)
    ensures r.Some? ==> r.value < n && ready(r.value) && forall i: nat :: i < r.value ==> !ready(i)
    ensures r.None? ==> forall i: nat :: i < n ==> !ready(i)
  {
    if n == 0 then None
    else if FirstReady(ready, n - 1).Some? then FirstReady(ready, n - 1)
    else if ready(n - 1) then Some(n - 1)
    else None
  }

  /** How long some ticks of the given length take with their delays. */
  function Slept(tick: real, lateness: nat -> real, ticks: nat): real
  {
    if ticks == 0 then 0.0 else Slept(tick, lateness, ticks - 1) + (tick + lateness(ticks - 1))
  }

  /** Sleeps up to n ticks of total length time, until the condition holds at the end of one. */
  method SleepUntil(n: int, time: real, ready: nat -> bool, lateness: nat -> real) returns (found: bool, slept: real)
    requires time >= 0.0 || n <= 0
    requires forall i :: lateness(i) >= 0.0
    ensures found <==> exists i: nat :: i < n && ready(i)
    ensures slept >= 0.0
    ensures found ==> slept >= time / n as real
    ensures found <==> n > 0 && FirstReady(ready, n).Some?
    ensures found ==> slept == Slept(time / n as real, lateness, FirstReady(ready, n).value + 1)
  {
    found, slept := false, 0.0;
    if n <= 0 {
      return;
    }
    var tick := time / n as real;
    TickNonNegative(time, n);
    var i := 0;
    while i < n
      invariant 0 <= i <= n && slept >= 0.0
      invariant i > 0 ==> slept >= tick
      invariant forall j: nat :: j < i ==> !ready(j)
      invariant slept == Slept(tick, lateness, i)
    {
      slept := slept + (tick + lateness(i));
      if ready(i) {
        assert FirstReady(ready, n) == Some(i);
        return true, slept;
      }
      i := i + 1;
    }
  }

  lemma TickNonNegative(time: real, n: int)
    requires time >= 0.0 && n > 0
    ensures time / n as real >= 0.0
  {
  }

  /** A tick is at least a tenth of a second when the number of ticks was derived from the time. */
  lemma TickIsLong(time: real)
    requires Intervals(time) > 0
    ensures time / Intervals(time) as real >= 0.1
  {
    var n := Intervals(time);
    assert time >= 0.1 * n as real;
    LongQuotient(time, n as real);
  }

  lemma LongQuotient(time: real, n: real)
    requires n > 0.0 && time >= 0.1 * n
    ensures time / n >= 0.1
  {
    assert (time / n) * n == time;
  }

  // ----- crediting a message -----

  predicate IdPrefix(f: Name, id: string)
  {
    f.id <= id
  }

  /** The first name in the given order that the id begins with. */
  function FirstPrefix(order: seq<Name>, id: string): (r: Option<Name>)
    ensures r.Some? ==> r.value in order && IdPrefix(r.value, id)
    ensures r.None? ==> forall f :: f in order ==> !IdPrefix(f, id)
    ensures r.Some? ==> exists i :: 0 <= i < |order| && order[i] == r.value && forall j :: 0 <= j < i ==> !IdPrefix(order[j], id)
  {
    if order == [] then None
    else if IdPrefix(order[0], id) then Some(order[0])
    else FirstPrefix(order[1..], id)
  }

  /** The allocated feed a turn's message is credited to. */
  function Credited(turn: Turn): Option<Name>
  {
    FirstPrefix(turn.allocOrder, turn.message.id)
  }

  /** No feed name is a proper prefix of another. */
  ghost predicate PrefixFree(names: set<Name>)
  {
    forall f, g :: f in names && g in names && f.id <= g.id ==> f == g
  }

  /** With prefix-free names the credited feed does not depend on iteration order: it is the one whose name prefixes the id. */
  lemma CreditIsUnique(turn: Turn, f: Name)
    requires OrdersMatch(turn) && PrefixFree(turn.table.alloc.Keys)
    requires f in turn.table.alloc && IdPrefix(f, turn.message.id)
    ensures Credited(turn) == Some(f)
  {
    OnePrefix(f, Credited(turn).value, turn.message.id);
  }

  /** Of two names that prefix the same id one prefixes the other. */
  lemma OnePrefix(f: Name, g: Name, id: string)
    requires IdPrefix(f, id) && IdPrefix(g, id)
    ensures f.id <= g.id || g.id <= f.id
  {
    if |f.id| <= |g.id| {
      assert f.id <= g.id;
    } else {
      assert g.id <= f.id;
    }
  }

  /** The old range onto the new one, linearly; values outside the old range count as its ends. */
  function MapValue(value: real, oldMin: real, oldMax: real, newMin: real, newMax: real): real
    requires oldMin != oldMax
  {
    var v := if value < oldMin then oldMin else if value > oldMax then oldMax else value;
    ((v - oldMin) * (newMax - newMin)) / (oldMax - oldMin) + newMin
  }

  lemma MapValueWithin(value: real, oldMin: real, oldMax: real, newMin: real, newMax: real)
    requires oldMin < oldMax && newMin <= newMax
    ensures newMin <= MapValue(value, oldMin, oldMax, newMin, newMax) <= newMax
    ensures MapValue(oldMin, oldMin, oldMax, newMin, newMax) == newMin
    ensures MapValue(oldMax, oldMin, oldMax, newMin, newMax) == newMax
  {
    hide MapValue;
    MapsClamped(value, oldMin, oldMax, newMin, newMax);
    MapsClamped(oldMin, oldMin, oldMax, newMin, newMax);
    MapsClamped(oldMax, oldMin, oldMax, newMin, newMax);
  }

  /** Inside the old range the mapping is linear: a step has the same proportion to the old range as its image has to the new one. */
  lemma MapsLinearly(v: real, w: real, oldMin: real, oldMax: real, newMin: real, newMax: real)
    requires oldMin <= v <= oldMax && oldMin <= w <= oldMax && oldMin != oldMax
    ensures (MapValue(v, oldMin, oldMax, newMin, newMax) - MapValue(w, oldMin, oldMax, newMin, newMax)) * (oldMax - oldMin)
      == (v - w) * (newMax - newMin)
  {
    var d, r := oldMax - oldMin, newMax - newMin;
    Unscaled(v - oldMin, r, d);
    Unscaled(w - oldMin, r, d);
    hide MapValue;
    MapInside(v, oldMin, oldMax, newMin, newMax);
    MapInside(w, oldMin, oldMax, newMin, newMax);
    Difference(v - oldMin, w - oldMin, r, d, ((v - oldMin) * r) / d, ((w - oldMin) * r) / d);
  }

  lemma MapInside(v: real, oldMin: real, oldMax: real, newMin: real, newMax: real)
    requires oldMin <= v <= oldMax && oldMin != oldMax
    ensures MapValue(v, oldMin, oldMax, newMin, newMax) == ((v - oldMin) * (newMax - newMin)) / (oldMax - oldMin) + newMin
  {
  }

  lemma Unscaled(x: real, r: real, d: real)
    requires d != 0.0
    ensures ((x * r) / d) * d == x * r
  {
  }

  lemma Difference(x: real, y: real, r: real, d: real, p: real, q: real)
    requires p * d == x * r && q * d == y * r
    ensures (p - q) * d == (x - y) * r
  {
  }

  /** Values outside the old range are mapped like its nearer end, whatever the new range. */
  lemma MapsOutside(value: real, oldMin: real, oldMax: real, newMin: real, newMax: real)
    requires oldMin < oldMax
    ensures value <= oldMin ==> MapValue(value, oldMin, oldMax, newMin, newMax) == MapValue(oldMin, oldMin, oldMax, newMin, newMax)
    ensures value >= oldMax ==> MapValue(value, oldMin, oldMax, newMin, newMax) == MapValue(oldMax, oldMin, oldMax, newMin, newMax)
  {
    var r := (0.0 * (newMax - newMin)) / (oldMax - oldMin) + newMin;
    var s := ((oldMax - oldMin) * (newMax - newMin)) / (oldMax - oldMin) + newMin;
    if value <= oldMin {
      MapIs(value, oldMin, oldMin, oldMax, newMin, newMax, r);
      MapIs(oldMin, oldMin, oldMin, oldMax, newMin, newMax, r);
    }
    if value >= oldMax {
      MapIs(value, oldMax, oldMin, oldMax, newMin, newMax, s);
      MapIs(oldMax, oldMax, oldMin, oldMax, newMin, newMax, s);
    }
    hide MapValue;
  }

  lemma MapIs(value: real, v: real, oldMin: real, oldMax: real, newMin: real, newMax: real, r: real)
    requires oldMin < oldMax && v == (if value < oldMin then oldMin else if value > oldMax then oldMax else value)
    requires r == ((v - oldMin) * (newMax - newMin)) / (oldMax - oldMin) + newMin
    ensures MapValue(value, oldMin, oldMax, newMin, newMax) == r
  {
  }

  lemma MapsClamped(value: real, oldMin: real, oldMax: real, newMin: real, newMax: real)
    requires oldMin < oldMax && newMin <= newMax
    ensures newMin <= MapValue(value, oldMin, oldMax, newMin, newMax) <= newMax
    ensures value <= oldMin ==> MapValue(value, oldMin, oldMax, newMin, newMax) == newMin
    ensures value >= oldMax ==> MapValue(value, oldMin, oldMax, newMin, newMax) == newMax
  {
    var v := if value < oldMin then oldMin else if value > oldMax then oldMax else value;
    Interpolates(v - oldMin, oldMax - oldMin, newMax - newMin);
  }

  lemma Interpolates(x: real, d: real, r: real)
    requires 0.0 <= x <= d && 0.0 < d && 0.0 <= r
    ensures 0.0 <= (x * r) / d <= r
    ensures x == 0.0 ==> (x * r) / d == 0.0
    ensures x == d ==> (x * r) / d == r
  {
    assert 0.0 <= x * r <= d * r;
    var p, q := x * r, d * r;
    assert q / d == r;
    assert 0.0 / d == 0.0;
    assert 0.0 <= p / d <= q / d;
  }

  /** None if a limited action has no initial limits or an empty initial range, where the program raises. */
  function Mapped(actions: map<Key, real>, t: Table): Option<map<Key, real>>
  {
    if forall key :: key in actions && key in t.limits ==> key in t.initLimits && t.initLimits[key].0 != t.initLimits[key].1
    then Some(map key | key in actions ::
           if key in t.limits
           then MapValue(actions[key], t.initLimits[key].0, t.initLimits[key].1, t.limits[key].0, t.limits[key].1)
           else actions[key])
    else None
  }

  /** What a turn adds to the aggregated actions. */
  function Taken(aggregated: map<Name, Payload>, turn: Turn): map<Name, Payload>
  {
    match Credited(turn)
    case Some(f) => aggregated[f := turn.message.payload]
    case None => aggregated
  }

  /** The independent feed whose action a turn passes on, if it does. */
  function PassedOn(turn: Turn): Option<Name>
  {
    if Credited(turn).Some? then None
    else
      match FirstPrefix(turn.feedOrder, turn.message.id)
      case Some(f) =>
        if f in turn.table.feeds && turn.table.feeds[f] == Independent && turn.message.payload.Dict? then Some(f) else None
      case None => None
  }

  /**
   When all known names are prefix-free, what happens to a message does not depend on iteration
   orders either. With f the known name that prefixes its id, it is credited to f if f is allocated,
   and passed on to f if f is not allocated but independent.
   */
  lemma ReceiverIsUnique(turn: Turn, f: Name)
    requires OrdersMatch(turn) && turn.table.alloc.Keys <= turn.table.topics.Keys && PrefixFree(turn.table.topics.Keys)
    requires IdPrefix(f, turn.message.id)
    ensures f in turn.table.alloc ==> Credited(turn) == Some(f) && PassedOn(turn) == None
    ensures f in turn.table.topics && f !in turn.table.alloc ==>
      && Credited(turn) == None
      && PassedOn(turn) == if turn.table.feeds[f] == Independent && turn.message.payload.Dict? then Some(f) else None
  {
    if f in turn.table.topics {
      if Credited(turn).Some? {
        OnePrefix(f, Credited(turn).value, turn.message.id);
      }
      var g := FirstPrefix(turn.feedOrder, turn.message.id);
      assert g.Some?;
      OnePrefix(f, g.value, turn.message.id);
    }
  }

  /** What a turn publishes, and whether it raises. */
  function Relayed(turn: Turn): (seq<Publication>, bool)
  {
    match PassedOn(turn)
    case None => ([], false)
    case Some(f) =>
      match Mapped(turn.message.payload.actions, turn.table)
      case Some(m) => ([ToFeed(f, if f in turn.table.topics then turn.table.topics[f] else Topic(""), m)], false)
      case None => ([], true)
  }

  /**
   What is passed on carries every action of the message: one without limits as it is, one with
   limits mapped from its initial range to the present one; and if a limited action has no initial
   range to map from, the turn raises.
   */
  lemma RelaysContent(turn: Turn, f: Name)
    requires OrdersMatch(turn) && PassedOn(turn) == Some(f)
    ensures f in turn.table.topics && turn.message.payload.Dict?
    ensures var t, actions := turn.table, turn.message.payload.actions;
      var (sent, failed) := Relayed(turn);
      if forall key :: key in actions ==> Mappable(t, key) then
        && !failed && |sent| == 1 && sent[0].ToFeed? && sent[0].to == f && sent[0].actions.Keys == actions.Keys
        && forall key :: key in actions ==> PassedValue(t, key, actions[key], sent[0].actions[key])
      else failed && sent == []
  {
    hide MapValue;
  }

  /** An action without limits, or one whose initial range is not empty. */
  predicate Mappable(t: Table, key: Key)
  {
    key in t.limits ==> key in t.initLimits && t.initLimits[key].0 != t.initLimits[key].1
  }

  /** y is what is passed on for the value x. */
  predicate PassedValue(t: Table, key: Key, x: real, y: real)
    requires Mappable(t, key)
  {
    if key in t.limits then y == MapValue(x, t.initLimits[key].0, t.initLimits[key].1, t.limits[key].0, t.limits[key].1)
    else y == x
  }

  /** The number of whole tenths of a second. */
  lemma IntervalsAre(time: real)
    ensures Intervals(time) as real * 0.1 <= time < (Intervals(time) + 1) as real * 0.1
  {
    var q := time / 0.1;
    assert q * 0.1 == time;
  }

  // ----- whole aggregations -----

  function Aggregated(turns: nat -> Turn, n: nat): map<Name, Payload>
  {
    if n == 0 then map[] else Taken(Aggregated(turns, n - 1), turns(n - 1))
  }

  function Published(turns: nat -> Turn, n: nat): seq<Publication>
  {
    if n == 0 then [] else Published(turns, n - 1) + Relayed(turns(n - 1)).0
  }

  /** How long the wait for the n-th message may last, when elapsed has passed since the start. */
  function WaitFor(maxTime: real, elapsed: real, n: nat): real
  {
    if n == 0 then maxTime else if maxTime - elapsed > 0.0 then maxTime - elapsed else 0.0
  }

  /** How long a turn waits for its message. */
  function Waited(timeWait: real, turn: Turn): real
  {
    var n := Intervals(timeWait);
    if n <= 0 then 0.0
    else
      match FirstReady(turn.ready, n)
      case Some(i) => Slept(timeWait / n as real, turn.lateness, i + 1)
      case None => 0.0
  }

  /** What has passed when n messages were handled. */
  function Elapsed(maxTime: real, turns: nat -> Turn, n: nat): real
  {
    if n == 0 then 0.0
    else
      var before := Elapsed(maxTime, turns, n - 1);
      before + (Waited(WaitFor(maxTime, before, n - 1), turns(n - 1)) + turns(n - 1).busy)
  }

  /** A message comes in turn n before the time that is left runs out. */
  ghost predicate Comes(maxTime: real, turns: nat -> Turn, n: nat)
  {
    exists i: nat :: i < Intervals(WaitFor(maxTime, Elapsed(maxTime, turns, n), n)) && turns(n).ready(i)
  }

  /**
   The aggregation loop. Whatever the turns bring, it ends: each message it takes costs at least
   a tenth of a second, so it takes at most maxTime / 0.1 of them. It ends with an action for as
   many feeds as are allocated, after a wait without a message, or by raising.
   */
  method Aggregate(maxTime: real, turns: nat -> Turn)
    returns (aggregated: map<Name, Payload>, published: seq<Publication>, taken: nat, raised: bool, timedOut: bool)
    requires forall i :: ClockRunsOn(turns(i))
    ensures taken <= if maxTime >= 0.0 then Intervals(maxTime) else 0
    ensures aggregated == Aggregated(turns, taken)
    ensures published == Published(turns, taken)
    ensures raised <==> taken > 0 && Relayed(turns(taken - 1)).1
    ensures raised || timedOut || |aggregated| >= |turns(taken).head.alloc|
    ensures forall i: nat :: i < taken ==> |Aggregated(turns, i)| < |turns(i).head.alloc|
    ensures timedOut ==> |aggregated| < |turns(taken).head.alloc|
    ensures timedOut ==> !Comes(maxTime, turns, taken)
    ensures forall i: nat :: i < taken ==> Comes(maxTime, turns, i)
  {
    hide Intervals, Taken, Relayed, ClockRunsOn, Aggregated, Published, Waited, Comes, Elapsed;
    NoTime(maxTime, turns);
    NoTurns(turns);
    var timeWait, elapsed := maxTime, 0.0;
    aggregated, published, taken, raised, timedOut := map[], [], 0, false, false;
    while |aggregated| < |turns(taken).head.alloc|
      invariant aggregated == Aggregated(turns, taken) && published == Published(turns, taken)
      invariant timeWait > 0.0 ==> timeWait == maxTime - elapsed
      invariant timeWait == WaitFor(maxTime, elapsed, taken) && elapsed == Elapsed(maxTime, turns, taken)
      invariant forall i: nat :: i < taken ==> Comes(maxTime, turns, i)
      invariant 0.1 * taken as real <= elapsed
      invariant taken <= if maxTime >= 0.0 && taken > 0 then Intervals(maxTime) else 0
      invariant taken > 0 ==> !Relayed(turns(taken - 1)).1
      invariant forall i: nat :: i < taken ==> |Aggregated(turns, i)| < |turns(i).head.alloc|
      decreases Intervals(timeWait)
    {
      var turn := turns(taken);
      var found, slept := Wait(timeWait, turn);
      ComesIff(maxTime, turns, taken);
      if !found {
        timedOut := true;
        IntervalsNonNegative(maxTime);
        return;
      }
      TakenFits(taken, maxTime, elapsed, timeWait);
      ghost var before := timeWait;
      elapsed := elapsed + slept + turn.busy;
      timeWait := if maxTime - elapsed > 0.0 then maxTime - elapsed else 0.0;
      IntervalsDrop(before, timeWait);
      OneMoreTurn(turns, taken);
      TimeNext(maxTime, turns, taken);
      aggregated := Taken(aggregated, turn);
      var (sent, failed) := Relayed(turn);
      published := published + sent;
      taken := taken + 1;
      if failed {
        raised := true;
        return;
      }
    }
    IntervalsNonNegative(maxTime);
  }

  lemma NoTurns(turns: nat -> Turn)
    ensures Aggregated(turns, 0) == map[] && Published(turns, 0) == []
  {
  }

  lemma OneMoreTurn(turns: nat -> Turn, n: nat)
    ensures Aggregated(turns, n + 1) == Taken(Aggregated(turns, n), turns(n))
    ensures Published(turns, n + 1) == Published(turns, n) + Relayed(turns(n)).0
  {
  }

  /** One wait: it succeeds only if there was time for a tick, and then takes at least a tenth of a second. */
  method Wait(timeWait: real, turn: Turn) returns (found: bool, slept: real)
    requires ClockRunsOn(turn)
    ensures found <==> exists i: nat :: i < Intervals(timeWait) && turn.ready(i)
    ensures found ==> Intervals(timeWait) > 0 && timeWait >= 0.1 && slept >= 0.1 && turn.busy >= 0.0
    ensures found ==> slept == Waited(timeWait, turn)
  {
    found, slept := SleepUntil(Intervals(timeWait), timeWait, turn.ready, turn.lateness);
    if found {
      TickIsLong(timeWait);
    }
  }

  lemma NoTime(maxTime: real, turns: nat -> Turn)
    ensures Elapsed(maxTime, turns, 0) == 0.0
  {
  }

  lemma TimeNext(maxTime: real, turns: nat -> Turn, n: nat)
    ensures Elapsed(maxTime, turns, n + 1)
      == Elapsed(maxTime, turns, n) + (Waited(WaitFor(maxTime, Elapsed(maxTime, turns, n), n), turns(n)) + turns(n).busy)
  {
  }

  lemma ComesIff(maxTime: real, turns: nat -> Turn, n: nat)
    ensures Comes(maxTime, turns, n) <==>
      exists i: nat :: i < Intervals(WaitFor(maxTime, Elapsed(maxTime, turns, n), n)) && turns(n).ready(i)
  {
  }

  lemma IntervalsNonNegative(time: real)
    ensures time >= 0.0 ==> Intervals(time) >= 0
  {
  }

  lemma IntervalsDrop(time: real, time': real)
    requires Intervals(time) > 0 && (time' <= time - 0.1 || time' == 0.0)
    ensures Intervals(time') < Intervals(time)
  {
  }

  lemma TakenFits(taken: nat, maxTime: real, elapsed: real, timeWait: real)
    requires Intervals(timeWait) > 0 && timeWait == maxTime - elapsed && 0.1 * taken as real <= elapsed
    ensures maxTime >= 0.0 && taken + 1 <= Intervals(maxTime)
  {
  }

  /** f was credited with the payload of turn i and with none of the turns from i to n. */
  ghost predicate LastCredited(turns: nat -> Turn, n: nat, f: Name, i: nat)
  {
    i < n && Credited(turns(i)) == Some(f) && forall j: nat :: i < j < n ==> Credited(turns(j)) != Some(f)
  }

  /** Each result entry is what the latest message credited to that feed carried, and each credited feed has one. */
  lemma {:induction false} LatestWins(turns: nat -> Turn, n: nat, f: Name, i: nat)
    requires LastCredited(turns, n, f, i)
    ensures f in Aggregated(turns, n) && Aggregated(turns, n)[f] == turns(i).message.payload
  {
    if i < n - 1 {
      LatestWins(turns, n - 1, f, i);
    }
  }

  lemma {:induction false} OnlyCredited(turns: nat -> Turn, n: nat, f: Name) returns (i: nat)
    requires f in Aggregated(turns, n)
    ensures LastCredited(turns, n, f, i)
  {
    if Credited(turns(n - 1)) == Some(f) {
      i := n - 1;
    } else {
      i := OnlyCredited(turns, n - 1, f);
    }
  }

  /** The relayed action goes to an independent feed outside the allocated set. */
  ghost predicate ToIndependent(p: Publication, t: Table)
  {
    && p.to in t.feeds && p.to in t.topics
    && t.feeds[p.to] == Independent && p.to !in t.alloc && p.topic == t.topics[p.to]
  }

  /** An aggregation publishes only to feeds that are independent when their message is handled. */
  lemma {:induction false} RelaysOnlyToIndependent(turns: nat -> Turn, n: nat)
    requires forall i :: OrdersMatch(turns(i))
    ensures forall p :: p in Published(turns, n) ==> exists i: nat :: i < n && ToIndependent(p, turns(i).table)
  {
    if n > 0 {
      RelaysOnlyToIndependent(turns, n - 1);
      var turn := turns(n - 1);
      assert OrdersMatch(turn);
      RelayedTo(turn);
    }
  }

  lemma RelayedTo(turn: Turn)
    requires OrdersMatch(turn)
    ensures forall p :: p in Relayed(turn).0 ==> ToIndependent(p, turn.table)
  {
    hide Mapped;
    if PassedOn(turn).Some? {
      var f := PassedOn(turn).value;
      assert f in turn.feedOrder && f in turn.table.feeds;
      assert f !in turn.allocOrder;
      assert f !in turn.table.alloc;
    }
  }
}
