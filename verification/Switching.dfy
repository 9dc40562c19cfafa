/**
 Several switchers coordinated into one published choice: 0 is the safe algorithm, 1 the unsafe
 one. A step gives each switcher whether its monitor sees a trend.
 */
module Switching {
  import opened Options
  import opened Monitors

  datatype Switcher = Switcher(status: Status, algo: int)

  datatype Detector = Detector(configs: seq<Config>, switchers: seq<Switcher>, published: seq<int>)

  const SAFE := 0
  const UNSAFE := 1

  /** The switcher after a step and the switch it asks for. */
  function Act(c: Config, w: Switcher, trend: bool): (Switcher, Option<int>)
  {
    var s := Step(c, w.status, trend);
    if w.algo == SAFE then
      if s.state == Healthy then (Switcher(s, UNSAFE), Some(UNSAFE)) else (Switcher(s, w.algo), None)
    else
      if s.state != Healthy then (Switcher(s, SAFE), Some(SAFE)) else (Switcher(s, w.algo), None)
  }

  /** The switcher forced to an algorithm from outside. */
  function Force(w: Switcher, algo: int): Switcher
  {
    Switcher(Forced(w.status, algo != SAFE), algo)
  }

  ghost predicate Matched(d: Detector, trends: seq<bool>)
  {
    |d.configs| == |d.switchers| == |trends|
  }

  function Acted(d: Detector, trends: seq<bool>): (ws: seq<Switcher>)
    requires Matched(d, trends)
    ensures |ws| == |trends|
  {
    seq(|trends|, i requires 0 <= i < |trends| => Act(d.configs[i], d.switchers[i], trends[i]).0)
  }

  predicate AsksFor(d: Detector, trends: seq<bool>, i: nat, algo: int)
    requires Matched(d, trends) && i < |trends|
  {
    Act(d.configs[i], d.switchers[i], trends[i]).1 == Some(algo)
  }

  function ForceAll(ws: seq<Switcher>, algo: int): (us: seq<Switcher>)
    ensures |us| == |ws|
  {
    seq(|ws|, i requires 0 <= i < |ws| => if ws[i].algo != algo then Force(ws[i], algo) else ws[i])
  }

  /** A decision: every switcher acts; without an alarm, one call for safe or a unanimous call for unsafe is published. */
  ghost function Decide(d: Detector, trends: seq<bool>): Detector
    requires Matched(d, trends)
  {
    var ws := Acted(d, trends);
    var alarm := exists i :: 0 <= i < |ws| && ws[i].status.state == Alarm;
    if ws == [] then d
    else if (exists i :: 0 <= i < |ws| && AsksFor(d, trends, i, SAFE)) && !alarm then
      d.(switchers := ForceAll(ws, SAFE), published := d.published + [SAFE])
    else if (forall i :: 0 <= i < |ws| ==> AsksFor(d, trends, i, UNSAFE)) && !alarm then
      d.(switchers := ForceAll(ws, UNSAFE), published := d.published + [UNSAFE])
    else d.(switchers := ws)
  }

  function Fresh(configs: seq<Config>): Detector
  {
    Detector(configs, seq(|configs|, _ => Switcher(INITIAL, UNSAFE)), [])
  }

  /** The last published choice; before the first one the stream runs the unsafe algorithm. */
  function Choice(d: Detector): int
  {
    if d.published == [] then UNSAFE else d.published[|d.published| - 1]
  }

  // ----- the invariant of all reachable detectors -----

  /** A switcher's algorithm is unsafe exactly while its monitor is healthy. */
  ghost predicate SwitcherInv(c: Config, w: Switcher)
  {
    Inv(c, w.status) && (w.algo == SAFE || w.algo == UNSAFE) && (w.algo == UNSAFE <==> w.status.state == Healthy)
  }

  ghost predicate AllHealthy(d: Detector)
  {
    forall i :: 0 <= i < |d.switchers| ==> d.switchers[i].status.state == Healthy && d.switchers[i].algo == UNSAFE
  }

  ghost predicate Consistent(d: Detector)
  {
    |d.configs| == |d.switchers| && forall i :: 0 <= i < |d.switchers| ==> SwitcherInv(d.configs[i], d.switchers[i])
  }

  ghost predicate DetectorInv(d: Detector)
  {
    && Consistent(d)
    && (Choice(d) == UNSAFE || Choice(d) == SAFE)
    && (Choice(d) == UNSAFE ==> AllHealthy(d))
  }

  lemma FreshInv(configs: seq<Config>)
    ensures DetectorInv(Fresh(configs))
  {
  }

  lemma ActKeepsInv(c: Config, w: Switcher, trend: bool)
    requires SwitcherInv(c, w)
    ensures SwitcherInv(c, Act(c, w, trend).0)
    ensures Act(c, w, trend).1 == Some(SAFE) <==> w.status.state == Healthy && trend
    ensures Act(c, w, trend).1 == Some(UNSAFE) <==> w.status.state != Healthy && Step(c, w.status, trend).state == Healthy
  {
  }

  lemma ActedInv(d: Detector, trends: seq<bool>)
    requires Consistent(d) && Matched(d, trends)
    ensures forall i :: 0 <= i < |trends| ==> SwitcherInv(d.configs[i], Acted(d, trends)[i])
  {
  }

  lemma ForceAllInv(configs: seq<Config>, ws: seq<Switcher>, algo: int)
    requires |configs| == |ws| && (algo == SAFE || algo == UNSAFE)
    requires forall i :: 0 <= i < |ws| ==> SwitcherInv(configs[i], ws[i]) && ws[i].status.state != Alarm
    ensures forall i :: 0 <= i < |ws| ==> SwitcherInv(configs[i], ForceAll(ws, algo)[i]) && ForceAll(ws, algo)[i].algo == algo
  {
  }

  /** A decision keeps the switchers consistent, and one that publishes something restores the whole invariant. */
  lemma DecideKeepsConsistent(d: Detector, trends: seq<bool>)
    requires Consistent(d) && Matched(d, trends)
    ensures Consistent(Decide(d, trends)) && Matched(Decide(d, trends), trends)
    ensures Decide(d, trends).published != d.published ==> DetectorInv(Decide(d, trends))
  {
    ActedInv(d, trends);
    var ws := Acted(d, trends);
    if forall i :: 0 <= i < |ws| ==> ws[i].status.state != Alarm {
      ForceAllInv(d.configs, ws, SAFE);
      ForceAllInv(d.configs, ws, UNSAFE);
    }
    hide Act, Force;
  }

  lemma DecideKeepsInv(d: Detector, trends: seq<bool>)
    requires DetectorInv(d) && Matched(d, trends)
    ensures DetectorInv(Decide(d, trends)) && Matched(Decide(d, trends), trends)
  {
    DecideKeepsConsistent(d, trends);
    hide SwitcherInv, Act, Force;
    if Decide(d, trends).published == d.published && AllHealthy(d) {
      QuietWhenHealthy(d, trends);
    }
  }

  /** With all switchers healthy a step that publishes nothing leaves them healthy. */
  lemma QuietWhenHealthy(d: Detector, trends: seq<bool>)
    requires DetectorInv(d) && Matched(d, trends) && AllHealthy(d)
    requires Decide(d, trends).published == d.published
    ensures AllHealthy(Decide(d, trends))
  {
    if i :| 0 <= i < |trends| && trends[i] {
      ReactsAtOnce(d, trends, i);
    }
  }

  /** From a state in which all switchers are healthy, a step in which any of them sees a trend publishes safe in that step. */
  lemma ReactsAtOnce(d: Detector, trends: seq<bool>, i: nat)
    requires DetectorInv(d) && Matched(d, trends) && AllHealthy(d)
    requires i < |trends| && trends[i]
    ensures Decide(d, trends).published == d.published + [SAFE]
  {
    var ws := Acted(d, trends);
    forall j | 0 <= j < |trends| ensures ws[j].status.state != Alarm {
      assert d.switchers[j].status.state == Healthy;
    }
    assert d.switchers[i].status.state == Healthy;
    assert AsksFor(d, trends, i, SAFE);
  }

  // ----- exactly what a decision publishes -----

  /** While a switcher is in alarm after acting, nothing is published and every switcher is left as it acted. */
  lemma AlarmSilences(d: Detector, trends: seq<bool>, i: nat)
    requires Matched(d, trends) && i < |trends| && Acted(d, trends)[i].status.state == Alarm
    ensures Decide(d, trends).published == d.published && Decide(d, trends).switchers == Acted(d, trends)
  {
  }

  ghost predicate SomeAlarm(d: Detector, trends: seq<bool>)
    requires Matched(d, trends)
  {
    exists i :: 0 <= i < |trends| && Acted(d, trends)[i].status.state == Alarm
  }

  /** Somebody healthy sees a trend. */
  ghost predicate SomeWarning(d: Detector, trends: seq<bool>)
    requires Matched(d, trends)
  {
    exists i :: 0 <= i < |trends| && d.switchers[i].status.state == Healthy && trends[i]
  }

  /** Everybody recovers in this step. */
  ghost predicate AllRecover(d: Detector, trends: seq<bool>)
    requires Matched(d, trends)
  {
    trends != [] && forall i :: 0 <= i < |trends| ==>
      d.switchers[i].status.state != Healthy && Acted(d, trends)[i].status.state == Healthy
  }

  /**
   What a decision publishes, from what the switchers were and became: the safe choice exactly if
   somebody healthy sees a trend and nobody is in alarm, the unsafe one exactly if everybody
   recovers in this step, and otherwise nothing. Whatever is published, all switchers then run it.
   */
  lemma PublishesExactly(d: Detector, trends: seq<bool>)
    requires Consistent(d) && Matched(d, trends)
    ensures var d' := Decide(d, trends);
      && d'.published == d.published +
           (if SomeWarning(d, trends) && !SomeAlarm(d, trends) then [SAFE] else if AllRecover(d, trends) then [UNSAFE] else [])
      && (d'.published != d.published ==> forall i :: 0 <= i < |d'.switchers| ==> d'.switchers[i].algo == Choice(d'))
      && (d'.published == d.published ==> d'.switchers == Acted(d, trends))
  {
    var ws := Acted(d, trends);
    forall i | 0 <= i < |trends|
      ensures AsksFor(d, trends, i, SAFE) <==> d.switchers[i].status.state == Healthy && trends[i]
      ensures AsksFor(d, trends, i, UNSAFE) <==> d.switchers[i].status.state != Healthy && ws[i].status.state == Healthy
      ensures SwitcherInv(d.configs[i], ws[i])
    {
      ActKeepsInv(d.configs[i], d.switchers[i], trends[i]);
      ActsAsStep(d, trends, i);
    }
    hide Act, Step, SwitcherInv, AsksFor;
    DecidesOn(d, trends);
    ForcedTo(ws, SAFE);
    ForcedTo(ws, UNSAFE);
  }

  lemma DecidesOn(d: Detector, trends: seq<bool>)
    requires Matched(d, trends)
    ensures var ws, d' := Acted(d, trends), Decide(d, trends);
      if (exists i :: 0 <= i < |trends| && AsksFor(d, trends, i, SAFE)) && !SomeAlarm(d, trends)
      then d'.switchers == ForceAll(ws, SAFE) && d'.published == d.published + [SAFE]
      else if trends != [] && (forall i :: 0 <= i < |trends| ==> AsksFor(d, trends, i, UNSAFE)) && !SomeAlarm(d, trends)
      then d'.switchers == ForceAll(ws, UNSAFE) && d'.published == d.published + [UNSAFE]
      else d'.switchers == ws && d'.published == d.published
  {
    hide AsksFor, ForceAll;
  }

  lemma ForcedTo(ws: seq<Switcher>, algo: int)
    ensures forall i :: 0 <= i < |ws| ==> ForceAll(ws, algo)[i].algo == algo
    ensures forall i :: 0 <= i < |ws| && ws[i].algo == algo ==> ForceAll(ws, algo)[i] == ws[i]
    ensures forall i :: 0 <= i < |ws| && ws[i].algo != algo ==>
      var s := ForceAll(ws, algo)[i].status;
      && (s.state == Healthy <==> algo != SAFE) && s.state != Alarm
      && s.recoveryIterations == s.trends == s.failed == 0
  {
  }

  // ----- runs -----

  ghost predicate MatchedAll(d: Detector, steps: seq<seq<bool>>)
  {
    |d.configs| == |d.switchers| && forall i :: 0 <= i < |steps| ==> |steps[i]| == |d.switchers|
  }

  ghost function DecideAll(d: Detector, steps: seq<seq<bool>>): (d': Detector)
    requires MatchedAll(d, steps)
    ensures d'.configs == d.configs && |d'.switchers| == |d.switchers|
  {
    if steps == [] then d
    else
      var n := |steps| - 1;
      Decide(DecideAll(d, steps[..n]), steps[n])
  }

  lemma {:induction false} RunKeepsInv(d: Detector, steps: seq<seq<bool>>)
    requires DetectorInv(d) && MatchedAll(d, steps)
    ensures DetectorInv(DecideAll(d, steps))
  {
    hide Decide, DetectorInv;
    if steps != [] {
      var n := |steps| - 1;
      RunKeepsInv(d, steps[..n]);
      DecideKeepsInv(DecideAll(d, steps[..n]), steps[n]);
    }
  }

  /**
   Switching safety over every run of a new detector: as long as the unsafe choice stands, every
   switcher is healthy with the unsafe algorithm, and a step in which one of them sees a trend
   publishes safe.
   */
  lemma SwitchingSafety(configs: seq<Config>, steps: seq<seq<bool>>, trends: seq<bool>)
    requires MatchedAll(Fresh(configs), steps) && |trends| == |configs|
    ensures var d := DecideAll(Fresh(configs), steps);
      Choice(d) == UNSAFE ==>
        && AllHealthy(d)
        && ((exists i :: 0 <= i < |trends| && trends[i]) ==> Decide(d, trends).published == d.published + [SAFE])
  {
    FreshInv(configs);
    RunKeepsInv(Fresh(configs), steps);
    var d := DecideAll(Fresh(configs), steps);
    if Choice(d) == UNSAFE {
      if i :| 0 <= i < |trends| && trends[i] {
        ReactsAtOnce(d, trends, i);
      }
    }
  }

  // ----- activations -----

  /** What happens to the agent: a decision on new statistics, or an activation from outside. */
  datatype Event = Decided(trends: seq<bool>) | Activated

  /** change_status to active publishes the unsafe choice if there are switchers. */
  function Activate(d: Detector): Detector
  {
    if d.switchers == [] then d else d.(published := d.published + [UNSAFE])
  }

  ghost predicate MatchedEvents(d: Detector, events: seq<Event>)
  {
    && |d.configs| == |d.switchers|
    && forall i :: 0 <= i < |events| && events[i].Decided? ==> |events[i].trends| == |d.switchers|
  }

  ghost function AfterEvents(d: Detector, events: seq<Event>): (d': Detector)
    requires MatchedEvents(d, events)
    ensures d'.configs == d.configs && |d'.switchers| == |d.switchers|
  {
    if events == [] then d
    else
      var n := |events| - 1;
      var before := AfterEvents(d, events[..n]);
      match events[n]
      case Decided(trends) => Decide(before, trends)
      case Activated => Activate(before)
  }

  /** Every activation found all switchers healthy. */
  ghost predicate HealthyActivations(d: Detector, events: seq<Event>)
    requires MatchedEvents(d, events)
  {
    forall k :: 0 <= k < |events| && events[k].Activated? ==> AllHealthy(AfterEvents(d, events[..k]))
  }

  ghost predicate InvThroughout(d: Detector, events: seq<Event>)
    requires MatchedEvents(d, events)
  {
    forall k :: 0 <= k <= |events| ==> DetectorInv(AfterEvents(d, events[..k]))
  }

  /** An activation keeps the invariant exactly if it finds all switchers healthy. */
  lemma ActivationKeepsInvIff(d: Detector)
    requires DetectorInv(d)
    ensures DetectorInv(Activate(d)) <==> AllHealthy(d)
  {
  }

  lemma PrefixOf(d: Detector, events: seq<Event>, k: nat)
    requires MatchedEvents(d, events) && k < |events|
    ensures MatchedEvents(d, events[..k + 1]) && events[..k + 1][..k] == events[..k]
    ensures AfterEvents(d, events[..k + 1]) ==
      match events[k]
      case Decided(trends) => Decide(AfterEvents(d, events[..k]), trends)
      case Activated => Activate(AfterEvents(d, events[..k]))
  {
    assert events[..k + 1][..k] == events[..k];
  }

  /**
   Switching safety over runs with activations: the invariant, under which the unsafe choice
   stands only while all switchers are healthy, holds throughout a run if and only if every
   activation finds all switchers healthy.
   */
  lemma SafeIffHealthyActivations(d: Detector, events: seq<Event>)
    requires DetectorInv(d) && MatchedEvents(d, events)
    ensures InvThroughout(d, events) <==> HealthyActivations(d, events)
  {
    hide DetectorInv, AllHealthy, Decide, Activate, AfterEvents;
    if InvThroughout(d, events) {
      forall k | 0 <= k < |events| && events[k].Activated? ensures AllHealthy(AfterEvents(d, events[..k])) {
        PrefixOf(d, events, k);
        assert DetectorInv(AfterEvents(d, events[..k + 1]));
        ActivationKeepsInvIff(AfterEvents(d, events[..k]));
      }
    }
    if HealthyActivations(d, events) {
      forall k | 0 <= k <= |events| ensures DetectorInv(AfterEvents(d, events[..k])) {
        InvUpTo(d, events, k);
      }
    }
  }

  lemma {:induction false} InvUpTo(d: Detector, events: seq<Event>, k: nat)
    requires DetectorInv(d) && MatchedEvents(d, events) && k <= |events| && HealthyActivations(d, events)
    ensures DetectorInv(AfterEvents(d, events[..k]))
  {
    hide DetectorInv, AllHealthy, Decide, Activate;
    if k > 0 {
      InvUpTo(d, events, k - 1);
      PrefixOf(d, events, k - 1);
      var before := AfterEvents(d, events[..k - 1]);
      match events[k - 1] {
        case Decided(trends) => DecideKeepsInv(before, trends);
        case Activated => ActivationKeepsInvIff(before);
      }
    }
  }

  /** A step of a run that ends with a switcher in alarm publishes nothing. */
  lemma AlarmSilencesRun(d: Detector, steps: seq<seq<bool>>, i: nat)
    requires MatchedAll(d, steps) && steps != [] && i < |d.switchers|
    requires DecideAll(d, steps).switchers[i].status.state == Alarm
    ensures DecideAll(d, steps).published == DecideAll(d, steps[..|steps| - 1]).published
  {
    var before, trends := DecideAll(d, steps[..|steps| - 1]), steps[|steps| - 1];
    assert DecideAll(d, steps) == Decide(before, trends);
    DecidesOn(before, trends);
    ForcedTo(Acted(before, trends), SAFE);
    ForcedTo(Acted(before, trends), UNSAFE);
    hide Decide, Acted, ForceAll;
  }

  /** With one switcher the published choice is its algorithm after every step. */
  lemma {:induction false} SingleSwitcherFollows(c: Config, steps: seq<seq<bool>>)
    requires MatchedAll(Fresh([c]), steps)
    ensures var d := DecideAll(Fresh([c]), steps); DetectorInv(d) && Choice(d) == d.switchers[0].algo
  {
    FreshInv([c]);
    RunKeepsInv(Fresh([c]), steps);
    if steps != [] {
      var n := |steps| - 1;
      SingleSwitcherFollows(c, steps[..n]);
      var d := DecideAll(Fresh([c]), steps[..n]);
      assert d.configs == [c];
      SingleStep(d, steps[n]);
    }
  }

  lemma SingleStep(d: Detector, trends: seq<bool>)
    requires DetectorInv(d) && Matched(d, trends) && |d.switchers| == 1 && Choice(d) == d.switchers[0].algo
    ensures Choice(Decide(d, trends)) == Decide(d, trends).switchers[0].algo
  {
    var w, trend := d.switchers[0], trends[0];
    ActKeepsInv(d.configs[0], w, trend);
    var ws := Acted(d, trends);
    assert AsksFor(d, trends, 0, SAFE) <==> w.status.state == Healthy && trend;
    assert AsksFor(d, trends, 0, UNSAFE) <==> w.status.state != Healthy && ws[0].status.state == Healthy;
    if AsksFor(d, trends, 0, SAFE) {
      assert ws[0].status.state == Recovery;
    }
  }

  // ----- alarms are left alone -----

  /** A switcher in alarm after acting is never reset by the detector. */
  lemma AlarmUninterrupted(d: Detector, trends: seq<bool>, i: nat)
    requires Matched(d, trends) && i < |trends|
    requires Acted(d, trends)[i].status.state == Alarm
    ensures Decide(d, trends).switchers[i] == Acted(d, trends)[i]
  {
  }

  /** A switcher that ends its alarm in a step is in recovery after that step, whatever the others do. */
  lemma AlarmEndsInRecovery(d: Detector, trends: seq<bool>, i: nat)
    requires DetectorInv(d) && Matched(d, trends) && i < |trends|
    requires d.switchers[i].status.state == Alarm && Acted(d, trends)[i].status.state != Alarm
    ensures Decide(d, trends).switchers[i] == Acted(d, trends)[i]
    ensures Decide(d, trends).switchers[i].status.state == Recovery
  {
    var ws := Acted(d, trends);
    assert SwitcherInv(d.configs[i], d.switchers[i]);
    assert ws[i].status.state == Recovery && ws[i].algo == SAFE;
    assert !AsksFor(d, trends, i, UNSAFE);
  }

  /** In every run an alarm lasts exactly max(1, alarm_iterations) steps and is followed by recovery. */
  lemma {:induction false} AlarmLastsInDetector(d: Detector, steps: seq<seq<bool>>, i: nat)
    requires DetectorInv(d) && MatchedAll(d, steps) && i < |d.switchers|
    requires d.switchers[i].status.state == Alarm && d.switchers[i].status.alarmIterations == 0
    requires |steps| <= AtLeastOne(d.configs[i].maxAlarm)
    ensures var s, s' := d.switchers[i].status, DecideAll(d, steps).switchers[i].status;
      if |steps| < AtLeastOne(d.configs[i].maxAlarm) then s' == s.(alarmIterations := |steps|)
      else s' == s.(state := Recovery)
  {
    if steps != [] {
      hide Decide, DetectorInv;
      var n := |steps| - 1;
      AlarmLastsInDetector(d, steps[..n], i);
      RunKeepsInv(d, steps[..n]);
      var d' := DecideAll(d, steps[..n]);
      if Acted(d', steps[n])[i].status.state == Alarm {
        AlarmUninterrupted(d', steps[n], i);
      } else {
        AlarmEndsInRecovery(d', steps[n], i);
      }
    }
  }

  // ----- returning to the unsafe choice -----

  function NoTrend(n: nat): seq<bool>
  {
    seq(n, _ => false)
  }

  ghost function QuietDecide(d: Detector, n: nat): (d': Detector)
    requires |d.configs| == |d.switchers|
    ensures d'.configs == d.configs && |d'.switchers| == |d.switchers|
  {
    if n == 0 then d else Decide(QuietDecide(d, n - 1), NoTrend(|d.configs|))
  }

  /** All switchers need exactly k more steps without a trend. */
  ghost predicate InStep(d: Detector, k: int)
  {
    |d.configs| == |d.switchers| && forall i :: 0 <= i < |d.switchers| ==> Rank(d.configs[i], d.switchers[i].status) == k
  }

  ghost predicate AllCanSettle(configs: seq<Config>)
  {
    forall i :: 0 <= i < |configs| ==> CanSettle(configs[i])
  }

  lemma OneRank(d: Detector, k: int, m: int)
    requires InStep(d, k) && InStep(d, m) && d.switchers != []
    ensures k == m == Rank(d.configs[0], d.switchers[0].status)
  {
  }

  /** What n steps without a trend leave: each monitor quietly on its way, and one unsafe choice if all arrived together. */
  ghost predicate QuietlyAfter(d: Detector, n: nat, d': Detector)
    requires |d.configs| == |d.switchers|
  {
    && |d'.switchers| == |d.switchers|
    && (forall i :: 0 <= i < |d.switchers| ==> d'.switchers[i].status == Quiet(d.configs[i], d.switchers[i].status, n))
    && d'.published == d.published + if exists k: nat :: 1 <= k <= n && InStep(d, k) then [UNSAFE] else []
  }

  /**
   Without trends the unsafe choice is published again if and only if all switchers become
   healthy in the same step: it takes equal ranks. Otherwise nothing is ever published.
   */
  lemma {:induction false} ReturnsOnlyInStep(d: Detector, n: nat)
    requires DetectorInv(d) && AllCanSettle(d.configs) && d.switchers != []
    ensures QuietlyAfter(d, n, QuietDecide(d, n)) && DetectorInv(QuietDecide(d, n))
  {
    if n > 0 {
      ReturnsOnlyInStep(d, n - 1);
      var e := QuietDecide(d, n - 1);
      DecideKeepsInv(e, NoTrend(|d.configs|));
      QuietStep(d, n, e);
    }
  }

  lemma QuietStep(d: Detector, n: nat, e: Detector)
    requires DetectorInv(d) && AllCanSettle(d.configs) && d.switchers != [] && n > 0
    requires DetectorInv(e) && e.configs == d.configs && QuietlyAfter(d, n - 1, e)
    ensures QuietlyAfter(d, n, Decide(e, NoTrend(|d.configs|)))
  {
    var trends := NoTrend(|d.configs|);
    var ws := Acted(e, trends);
    forall i | 0 <= i < |ws|
      ensures ws[i].status == Quiet(d.configs[i], d.switchers[i].status, n)
      ensures !AsksFor(e, trends, i, SAFE)
      ensures AsksFor(e, trends, i, UNSAFE) <==> Rank(d.configs[i], d.switchers[i].status) == n
    {
      SelfStabilises(d.configs[i], d.switchers[i].status, n - 1);
      SelfStabilises(d.configs[i], d.switchers[i].status, n);
      ActKeepsInv(e.configs[i], e.switchers[i], false);
    }
    ActedInv(e, trends);
    hide Act, Step, Quiet, Rank, SwitcherInv;
    QuietOutcome(d, n, e, ws, trends);
  }

  lemma QuietOutcome(d: Detector, n: nat, e: Detector, ws: seq<Switcher>, trends: seq<bool>)
    requires |d.configs| == |d.switchers| > 0 && n > 0 && Matched(e, trends) && e.configs == d.configs
    requires QuietlyAfter(d, n - 1, e) && ws == Acted(e, trends)
    requires forall i :: 0 <= i < |ws| ==> SwitcherInv(d.configs[i], ws[i])
    requires forall i :: 0 <= i < |ws| ==>
      && ws[i].status == Quiet(d.configs[i], d.switchers[i].status, n)
      && !AsksFor(e, trends, i, SAFE)
      && (AsksFor(e, trends, i, UNSAFE) <==> Rank(d.configs[i], d.switchers[i].status) == n)
    ensures QuietlyAfter(d, n, Decide(e, trends))
  {
    hide Step, Quiet, Rank;
    if InStep(d, n) {
      forall i | 0 <= i < |ws| ensures ws[i].status.state == Healthy && ws[i].algo == UNSAFE {
        assert AsksFor(e, trends, i, UNSAFE);
      }
      assert ForceAll(ws, UNSAFE) == ws;
      assert !exists k: nat :: 1 <= k <= n - 1 && InStep(d, k) by {
        if k: nat :| 1 <= k <= n - 1 && InStep(d, k) {
          OneRank(d, k, n);
          assert false;
        }
      }
      assert 1 <= n <= n && InStep(d, n);
    } else {
      var i :| 0 <= i < |ws| && Rank(d.configs[i], d.switchers[i].status) != n;
      assert !AsksFor(e, trends, i, UNSAFE);
      assert (exists k: nat :: 1 <= k <= n && InStep(d, k)) ==> exists k: nat :: 1 <= k <= n - 1 && InStep(d, k);
    }
  }

  /**
   Two switchers with recoveries of different length, once switched to safe by a trend, stay
   safe: after the trend stops, no number of steps publishes the unsafe choice again.
   */
  lemma UnequalRecoveriesStaySafe(c0: Config, c1: Config, n: nat)
    requires AtLeastOne(c0.maxRecovery) != AtLeastOne(c1.maxRecovery)
    ensures var d := Decide(Fresh([c0, c1]), [true, true]);
      |d.configs| == |d.switchers| && d.published == [SAFE] && QuietDecide(d, n).published == [SAFE]
  {
    BothTurnSafe(c0, c1);
    var d := Decide(Fresh([c0, c1]), [true, true]);
    hide Decide, Act, Forced, Step, DetectorInv;
    assert Rank(d.configs[0], d.switchers[0].status) != Rank(d.configs[1], d.switchers[1].status);
    if !CanSettle(c0) {
      UnsettledStaysSafe(d, 0, n);
    } else if !CanSettle(c1) {
      UnsettledStaysSafe(d, 1, n);
    } else {
      ReturnsOnlyInStep(d, n);
    }
  }

  /** Switcher i is outside healthy and cannot settle. */
  ghost predicate Unsettled(d: Detector, i: nat)
  {
    DetectorInv(d) && i < |d.switchers| && !CanSettle(d.configs[i]) && d.switchers[i].status.state != Healthy
  }

  /** One switcher outside healthy that cannot settle keeps the detector from publishing anything without trends. */
  lemma {:induction false} UnsettledStaysSafe(d: Detector, i: nat, n: nat)
    requires |d.configs| == |d.switchers| && Unsettled(d, i)
    ensures Unsettled(QuietDecide(d, n), i) && QuietDecide(d, n).published == d.published
  {
    hide *;
    QuietNext(d, n);
    if n > 0 {
      UnsettledStaysSafe(d, i, n - 1);
      UnsettledStep(QuietDecide(d, n - 1), i);
    }
  }

  lemma QuietNext(d: Detector, n: nat)
    requires |d.configs| == |d.switchers|
    ensures QuietDecide(d, 0) == d
    ensures n > 0 ==> QuietDecide(d, n) == Decide(QuietDecide(d, n - 1), NoTrend(|d.configs|))
  {
  }

  lemma UnsettledStep(e: Detector, i: nat)
    requires |e.configs| == |e.switchers| && Unsettled(e, i)
    ensures var e' := Decide(e, NoTrend(|e.configs|));
      Unsettled(e', i) && e'.published == e.published
  {
    var trends := NoTrend(|e.configs|);
    DecideKeepsInv(e, trends);
    var c, s := e.configs[i], e.switchers[i].status;
    assert Inv(c, s);
    ZeroFailuresNeverSettle(c, s, 1);
    assert Quiet(c, s, 1) == Step(c, Quiet(c, s, 0), false) == Step(c, s, false);
    hide Step, Quiet, Inv, Act;
    forall j | 0 <= j < |trends| ensures !AsksFor(e, trends, j, SAFE) && (j == i ==> !AsksFor(e, trends, j, UNSAFE)) {
      ActKeepsInv(e.configs[j], e.switchers[j], false);
    }
    ActsAsStep(e, trends, i);
    hide AsksFor, SwitcherInv, DetectorInv;
    assert !AsksFor(e, trends, i, SAFE) && !AsksFor(e, trends, i, UNSAFE);
    assert Decide(e, trends) == e.(switchers := Acted(e, trends));
  }

  lemma ActsAsStep(d: Detector, trends: seq<bool>, i: nat)
    requires Matched(d, trends) && i < |trends|
    ensures Acted(d, trends)[i].status == Step(d.configs[i], d.switchers[i].status, trends[i])
  {
    hide Step;
  }

  lemma BothTurnSafe(c0: Config, c1: Config)
    ensures var d := Decide(Fresh([c0, c1]), [true, true]);
      && DetectorInv(d) && d.configs == [c0, c1] && d.published == [SAFE]
      && d.switchers == [Switcher(INITIAL.(state := Recovery), SAFE), Switcher(INITIAL.(state := Recovery), SAFE)]
  {
    var f := Fresh([c0, c1]);
    FreshInv([c0, c1]);
    ReactsAtOnce(f, [true, true], 0);
    DecideKeepsInv(f, [true, true]);
    hide DetectorInv;
    var ws := Acted(f, [true, true]);
    assert ws[0] == Switcher(INITIAL.(state := Recovery), SAFE) == ws[1];
    assert ForceAll(ws, SAFE) == ws;
  }
}
