/** The safety detector as the objects it is made of: monitors, switchers and the agent. */
module SafetyAgents {
  import opened Options
  import T = Thresholds
  import opened Monitors
  import S = Switching

  datatype Target = Loss | Nack | Pli | Rtt | Jit

  datatype Agreement = AnyTrend | AllTrends | HalfOfTrends | NoAgreement

  /** A monitor as a value. */
  datatype MonitorView = MonitorView(
    config: Config, agreement: Agreement, targets: seq<Target>, detectors: seq<T.Detector>, status: Status, isTrend: bool)

  predicate Agrees(agreement: Agreement, trends: seq<bool>)
  {
    match agreement
    case AnyTrend => exists i :: 0 <= i < |trends| && trends[i]
    case AllTrends => forall i :: 0 <= i < |trends| ==> trends[i]
    case HalfOfTrends => T.Count(trends) > |trends| / 2
    case NoAgreement => false
  }

  predicate Delivered(targets: seq<Target>, values: map<Target, real>)
  {
    forall t :: t in targets ==> t in values
  }

  function CheckedDetectors(v: MonitorView, values: map<Target, real>): (ds: seq<T.Detector>)
    requires |v.targets| == |v.detectors| && Delivered(v.targets, values)
    ensures |ds| == |v.detectors|
  {
    seq(|v.detectors|, i requires 0 <= i < |v.detectors| => assert v.targets[i] in v.targets;
      T.Check(v.detectors[i], values[v.targets[i]]).0)
  }

  function CheckedTrends(v: MonitorView, values: map<Target, real>): (bs: seq<bool>)
    requires |v.targets| == |v.detectors| && Delivered(v.targets, values)
    ensures |bs| == |v.detectors|
  {
    seq(|v.detectors|, i requires 0 <= i < |v.detectors| => assert v.targets[i] in v.targets;
      T.Check(v.detectors[i], values[v.targets[i]]).1)
  }

  /** Monitor.act: the detectors and the trend flag after new statistics; unchanged if a target is missing. */
  function Sensed(v: MonitorView, values: map<Target, real>): MonitorView
  {
    if |v.targets| == |v.detectors| && Delivered(v.targets, values)
    then v.(detectors := CheckedDetectors(v, values), isTrend := Agrees(v.agreement, CheckedTrends(v, values)))
    else v
  }

  // ----- agreement -----

  ghost function Trending(trends: seq<bool>): set<int>
  {
    set i | 0 <= i < |trends| && trends[i]
  }

  lemma {:induction false} CountIsNumber(trends: seq<bool>)
    ensures T.Count(trends) == |Trending(trends)|
  {
    if trends != [] {
      var n := |trends| - 1;
      CountIsNumber(trends[..n]);
      assert Trending(trends) == Trending(trends[..n]) + if trends[n] then {n} else {};
    }
  }

  /** The half strategy asks for a strict majority of the detectors. */
  lemma HalfIsMajority(trends: seq<bool>)
    ensures Agrees(HalfOfTrends, trends) <==> 2 * |Trending(trends)| > |trends|
  {
    CountIsNumber(trends);
  }

  lemma {:induction false} TrendingBounds(trends: seq<bool>)
    ensures |Trending(trends)| <= |trends|
    ensures (forall i :: 0 <= i < |trends| ==> trends[i]) ==> |Trending(trends)| == |trends|
  {
    if trends != [] {
      var n := |trends| - 1;
      TrendingBounds(trends[..n]);
      assert Trending(trends) == Trending(trends[..n]) + if trends[n] then {n} else {};
      hide Trending;
    }
  }

  lemma SomeTrending(trends: seq<bool>)
    ensures |Trending(trends)| > 0 ==> exists i :: 0 <= i < |trends| && trends[i]
  {
    if |Trending(trends)| > 0 {
      var i :| i in Trending(trends);
    }
  }

  /** Of any verdicts at all, all imply half and half implies any; of none, only the all strategy sees a trend. */
  lemma AgreementsNested(trends: seq<bool>)
    ensures trends != [] && Agrees(AllTrends, trends) ==> Agrees(HalfOfTrends, trends)
    ensures Agrees(HalfOfTrends, trends) ==> Agrees(AnyTrend, trends)
    ensures trends == [] ==> Agrees(AllTrends, trends) && !Agrees(HalfOfTrends, trends) && !Agrees(AnyTrend, trends)
    ensures !Agrees(NoAgreement, trends)
  {
    HalfIsMajority(trends);
    TrendingBounds(trends);
    SomeTrending(trends);
    hide Trending;
  }

  /** What one more verdict does: any needs one, all needs every one, and half moves by at most one detector. */
  lemma OneMoreVerdict(trends: seq<bool>, trend: bool)
    ensures Agrees(AnyTrend, trends + [trend]) <==> Agrees(AnyTrend, trends) || trend
    ensures Agrees(AllTrends, trends + [trend]) <==> Agrees(AllTrends, trends) && trend
    ensures |Trending(trends + [trend])| == |Trending(trends)| + if trend then 1 else 0
  {
    var more := trends + [trend];
    assert Trending(more) == Trending(trends) + if trend then {|trends|} else {};
    assert forall i :: 0 <= i < |trends| ==> more[i] == trends[i];
    assert more[|trends|] == trend;
  }

  /** A detector's result depends on its own target's value alone, and without some target nothing changes. */
  lemma SensedLocally(v: MonitorView, values: map<Target, real>, values': map<Target, real>, i: nat)
    requires |v.targets| == |v.detectors| && i < |v.targets|
    requires Delivered(v.targets, values) && Delivered(v.targets, values')
    requires v.targets[i] in values && v.targets[i] in values' && values[v.targets[i]] == values'[v.targets[i]]
    ensures Sensed(v, values).detectors[i] == Sensed(v, values').detectors[i]
    ensures CheckedTrends(v, values)[i] == CheckedTrends(v, values')[i]
    ensures |Sensed(v, values).detectors| == |v.detectors|
    ensures Sensed(v, values - {v.targets[i]}) == v
  {
    hide T.Check;
    assert v.targets[i] in v.targets;
  }

  // ----- the objects -----

  ghost function Objects(ts: seq<T.Thresholder>): (os: set<object>)
    ensures forall i :: 0 <= i < |ts| ==> ts[i] as object in os
  {
    set i | 0 <= i < |ts| :: ts[i] as object
  }

  class Monitor {
    const config: Config
    const agreement: Agreement
    const targets: seq<Target>
    const thresholders: seq<T.Thresholder>
    var state: State
    var isTrend: bool
    var recoveryIterations: int
    var trendsDuringRecovery: int
    var failedRecoveries: int
    var isFailedRecoveriesIncreased: bool
    var alarmIterations: int

    ghost const Repr: set<object>

    ghost predicate Valid()
      reads Objects(thresholders)
    {
      && Repr == {this} + Objects(thresholders)
      && |targets| == |thresholders|
      && (forall i, j :: 0 <= i < j < |thresholders| ==> thresholders[i] != thresholders[j])
      && (forall i :: 0 <= i < |thresholders| ==> |thresholders[i].values| <= thresholders[i].maxWindowSize)
    }

    ghost function StatusView(): Status
      reads this
    {
      Status(state, recoveryIterations, trendsDuringRecovery, failedRecoveries, isFailedRecoveriesIncreased, alarmIterations)
    }

    ghost function View(): (v: MonitorView)
      reads this, Objects(thresholders)
      ensures |v.detectors| == |thresholders|
    {
      MonitorView(config, agreement, targets,
        seq(|thresholders|, i requires 0 <= i < |thresholders| reads Objects(thresholders) => thresholders[i].View()),
        StatusView(), isTrend)
    }

    constructor (config: Config, agreement: Agreement, targets: seq<Target>, thresholders: seq<T.Thresholder>)
      requires |targets| == |thresholders|
      requires forall i, j :: 0 <= i < j < |thresholders| ==> thresholders[i] != thresholders[j]
      requires forall i :: 0 <= i < |thresholders| ==> thresholders[i].values == []
      ensures Valid() && fresh(Repr - Objects(thresholders))
      ensures this.config == config && this.thresholders == thresholders
      ensures StatusView() == INITIAL && !isTrend
    {
      this.config, this.agreement, this.targets, this.thresholders := config, agreement, targets, thresholders;
      state, isTrend := Healthy, false;
      recoveryIterations, trendsDuringRecovery, failedRecoveries, alarmIterations := 0, 0, 0, 0;
      isFailedRecoveriesIncreased := false;
      Repr := {this} + Objects(thresholders);
    }

    method Act(values: map<Target, real>)
      requires Valid()
      modifies this`isTrend, Objects(thresholders)
      ensures Valid() && View() == Sensed(old(View()), values)
    {
      hide CheckedDetectors, CheckedTrends, T.Check, Agrees;
      if forall t :: t in targets ==> t in values {
        var trends := CheckTrends(values);
        isTrend := Agreed(trends);
      }
    }

    /** Whether the detectors' verdicts amount to a trend under the monitor's agreement. */
    method Agreed(trends: seq<bool>) returns (trend: bool)
      ensures trend == Agrees(agreement, trends)
    {
      match agreement {
        case AnyTrend => trend := exists i :: 0 <= i < |trends| && trends[i];
        case AllTrends => trend := forall i :: 0 <= i < |trends| ==> trends[i];
        case HalfOfTrends => trend := T.Count(trends) > |trends| / 2;
        case NoAgreement => trend := false;
      }
    }

    /** One detector checks its sample; nothing else changes. */
    method CheckOne(i: nat, value: real) returns (trend: bool)
      requires Valid() && i < |thresholders|
      modifies Objects(thresholders)
      ensures Valid()
      ensures (thresholders[i].View(), trend) == T.Check(old(thresholders[i].View()), value)
      ensures forall j :: 0 <= j < |thresholders| && j != i ==> thresholders[j].View() == old(thresholders[j].View())
    {
      hide T.Check;
      trend := thresholders[i].CheckTrend(value);
    }

    method CheckTrends(values: map<Target, real>) returns (trends: seq<bool>)
      requires Valid() && Delivered(targets, values)
      modifies Objects(thresholders)
      ensures Valid() && View() == old(View()).(detectors := CheckedDetectors(old(View()), values))
      ensures trends == CheckedTrends(old(View()), values)
    {
      hide T.Check;
      trends := [];
      assert |targets| == |thresholders|;
      assert forall i :: 0 <= i < |targets| ==> targets[i] in targets;
      hide Valid;
      for i := 0 to |thresholders|
        invariant Valid() && |trends| == i
        invariant forall j :: 0 <= j < i ==> (thresholders[j].View(), trends[j]) == T.Check(old(thresholders[j].View()), values[targets[j]])
        invariant forall j :: i <= j < |thresholders| ==> thresholders[j].View() == old(thresholders[j].View())
      {
        var trend := CheckOne(i, values[targets[i]]);
        trends := trends + [trend];
      }
    }

    method CheckStateChange() returns (code: int)
      modifies this
      ensures (StatusView(), code) == StepWithCode(config, old(StatusView()), old(isTrend)) && isTrend == old(isTrend)
    {
      match state {
        case Healthy =>
          if isTrend {
            state := Recovery;
            return 1;
          }
          return 0;
        case Recovery =>
          var recovered := IsRecovered();
          if recovered {
            state := Healthy;
            return 1;
          }
          var alarm := IsAlarm();
          if alarm {
            state := Alarm;
            return 1;
          } else if isFailedRecoveriesIncreased {
            isFailedRecoveriesIncreased := false;
            return 2;
          }
          return 0;
        case Alarm =>
          var ended := IsAlarmEnd();
          if ended {
            state := Recovery;
            return 1;
          }
          return 0;
      }
    }

    method IsAlarm() returns (alarm: bool)
      modifies this
      ensures (StatusView(), alarm) == AlarmRaised(config, old(StatusView())) && isTrend == old(isTrend)
    {
      if config.failuresToAlarm >= 0 && failedRecoveries >= config.failuresToAlarm {
        failedRecoveries, trendsDuringRecovery, recoveryIterations := 0, 0, 0;
        return true;
      }
      return false;
    }

    method IsAlarmEnd() returns (ended: bool)
      modifies this
      ensures (StatusView(), ended) == AlarmEnded(config, old(StatusView())) && isTrend == old(isTrend)
    {
      alarmIterations := alarmIterations + 1;
      if alarmIterations >= config.maxAlarm {
        alarmIterations := 0;
        return true;
      }
      return false;
    }

    method IsRecovered() returns (recovered: bool)
      modifies this
      ensures (StatusView(), recovered) == Recovered(config, old(StatusView()), old(isTrend)) && isTrend == old(isTrend)
    {
      recoveryIterations := recoveryIterations + 1;
      if isTrend {
        trendsDuringRecovery := trendsDuringRecovery + 1;
      }
      if config.maxTrends >= 0 && trendsDuringRecovery > config.maxTrends {
        recoveryIterations, trendsDuringRecovery := 0, 0;
        failedRecoveries := failedRecoveries + 1;
        isFailedRecoveriesIncreased := true;
        return false;
      }
      if recoveryIterations < config.maxRecovery {
        return false;
      }
      recoveryIterations, trendsDuringRecovery, failedRecoveries := 0, 0, 0;
      return true;
    }
  }

  class Switcher {
    const monitor: Monitor
    var algo: int

    ghost const Repr: set<object>

    ghost predicate Valid()
      reads Objects(monitor.thresholders)
    {
      monitor.Valid() && Repr == {this} + monitor.Repr && this !in monitor.Repr
    }

    ghost function View(): S.Switcher
      reads this, monitor
    {
      S.Switcher(monitor.StatusView(), algo)
    }

    constructor (monitor: Monitor)
      requires monitor.Valid()
      ensures Valid() && this.monitor == monitor && fresh(Repr - monitor.Repr)
      ensures algo == S.UNSAFE
    {
      this.monitor, algo := monitor, S.UNSAFE;
      Repr := {this} + monitor.Repr;
    }

    method Act(values: map<Target, real>) returns (r: Option<int>)
      requires Valid()
      modifies Repr
      ensures Valid()
      ensures monitor.isTrend == Sensed(old(monitor.View()), values).isTrend
      ensures (View(), r) == S.Act(monitor.config, old(View()), monitor.isTrend)
      ensures monitor.View() == Sensed(old(monitor.View()), values).(status := monitor.StatusView())
    {
      hide StepWithCode, Agrees, CheckedDetectors, CheckedTrends, Delivered;
      monitor.Act(values);
      var _ := monitor.CheckStateChange();
      if algo == 0 {
        if monitor.state == Healthy {
          algo := 1;
          return Some(algo);
        }
      } else {
        if monitor.state != Healthy {
          algo := 0;
          return Some(algo);
        }
      }
      return None;
    }

    method ForceAlgo(algo: int)
      requires Valid()
      modifies this, monitor
      ensures Valid() && View() == S.Force(old(View()), algo)
      ensures monitor.isTrend == old(monitor.isTrend)
    {
      this.algo := algo;
      monitor.recoveryIterations, monitor.trendsDuringRecovery, monitor.failedRecoveries := 0, 0, 0;
      if algo == 0 {
        monitor.state := Recovery;
      } else {
        monitor.state := Healthy;
      }
    }
  }

  /** How many ask for an algorithm. */
  function Asking(asked: seq<Option<int>>, algo: int): nat
  {
    if asked == [] then 0 else Asking(asked[..|asked| - 1], algo) + if asked[|asked| - 1] == Some(algo) then 1 else 0
  }

  lemma AskingNext(asked: seq<Option<int>>, a: Option<int>, algo: int)
    ensures Asking(asked + [a], algo) == Asking(asked, algo) + if a == Some(algo) then 1 else 0
  {
  }

  lemma {:induction false} AskingBounds(asked: seq<Option<int>>, algo: int)
    ensures Asking(asked, algo) <= |asked|
    ensures Asking(asked, algo) > 0 <==> exists i :: 0 <= i < |asked| && asked[i] == Some(algo)
    ensures Asking(asked, algo) == |asked| <==> forall i :: 0 <= i < |asked| ==> asked[i] == Some(algo)
  {
    if asked != [] {
      AskingBounds(asked[..|asked| - 1], algo);
    }
  }

  lemma ActedOutcome(d: S.Detector, trends: seq<bool>, views: seq<S.Switcher>, asked: seq<Option<int>>)
    requires S.Matched(d, trends) && |views| == |asked| == |trends|
    requires forall i :: 0 <= i < |trends| ==> (views[i], asked[i]) == S.Act(d.configs[i], d.switchers[i], trends[i])
    ensures views == S.Acted(d, trends)
    ensures forall i, algo :: 0 <= i < |trends| ==> (S.AsksFor(d, trends, i, algo) <==> asked[i] == Some(algo))
  {
  }

  class SafetyDetectorAgent {
    const switchers: seq<Switcher>
    var isInactive: bool
    var hasLastStats: bool
    ghost var published: seq<int>

    ghost const Repr: set<object>

    ghost predicate Valid()
      reads Repr
    {
      && this in Repr
      && (forall i :: 0 <= i < |switchers| ==>
            Objects(switchers[i].monitor.thresholders) <= Repr && switchers[i].Repr <= Repr && this !in switchers[i].Repr)
      && (forall i :: 0 <= i < |switchers| ==> switchers[i].Valid())
      && (forall i, j :: 0 <= i < j < |switchers| ==> switchers[i].Repr !! switchers[j].Repr)
    }

    function Configs(): (cs: seq<Config>)
      ensures |cs| == |switchers|
    {
      seq(|switchers|, i requires 0 <= i < |switchers| => switchers[i].monitor.config)
    }

    ghost function Views(): (vs: seq<S.Switcher>)
      reads switchers, set s | s in switchers :: s.monitor
      ensures |vs| == |switchers|
    {
      seq(|switchers|, i requires 0 <= i < |switchers|
        reads switchers, set s | s in switchers :: s.monitor => switchers[i].View())
    }

    ghost function View(): S.Detector
      reads this, switchers, set s | s in switchers :: s.monitor
    {
      S.Detector(Configs(), Views(), published)
    }

    ghost function Trends(): (bs: seq<bool>)
      reads set s | s in switchers :: s.monitor
      ensures |bs| == |switchers|
    {
      seq(|switchers|, i requires 0 <= i < |switchers|
        reads set s | s in switchers :: s.monitor => switchers[i].monitor.isTrend)
    }

    constructor (switchers: seq<Switcher>, hasCallbacks: bool, isStartInactive: bool, ghost repr: set<object>)
      requires forall i :: 0 <= i < |switchers| ==> switchers[i].Valid() && switchers[i].Repr <= repr
      requires forall i :: 0 <= i < |switchers| ==> Objects(switchers[i].monitor.thresholders) <= repr
      requires forall i, j :: 0 <= i < j < |switchers| ==> switchers[i].Repr !! switchers[j].Repr
      ensures Valid() && this.switchers == switchers && published == []
      ensures isInactive == ((switchers == [] && !hasCallbacks) || isStartInactive)
    {
      this.switchers := switchers;
      isInactive := (switchers == [] && !hasCallbacks) || isStartInactive;
      hasLastStats, published := false, [];
      Repr := repr + {this};
    }

    /** What the monitors will see as trends in the statistics. */
    ghost function SensedTrends(values: map<Target, real>): (bs: seq<bool>)
      reads Repr
      requires Valid()
      ensures |bs| == |switchers|
    {
      seq(|switchers|, i requires 0 <= i < |switchers| && Valid() reads Repr => Sensed(switchers[i].monitor.View(), values).isTrend)
    }

    /** One switcher acts; nothing of the others changes. */
    method ActOne(i: nat, values: map<Target, real>) returns (sa: Option<int>)
      requires Valid() && i < |switchers|
      modifies Repr
      ensures Valid() && published == old(published) && isInactive == old(isInactive) && hasLastStats == old(hasLastStats)
      ensures forall j :: 0 <= j < |switchers| && j != i ==> switchers[j].monitor.isTrend == old(switchers[j].monitor.isTrend)
      ensures switchers[i].monitor.isTrend == Sensed(old(switchers[i].monitor.View()), values).isTrend
      ensures (switchers[i].View(), sa) == S.Act(switchers[i].monitor.config, old(switchers[i].View()), switchers[i].monitor.isTrend)
      ensures forall j :: 0 <= j < |switchers| && j != i ==>
        switchers[j].View() == old(switchers[j].View()) && switchers[j].monitor.View() == old(switchers[j].monitor.View())
    {
      hide S.Act, Sensed;
      sa := switchers[i].Act(values);
    }

    /** Every switcher acts on the statistics; returns how many ask for each algorithm and whether any is in alarm. */
    method ActAll(values: map<Target, real>) returns (toSafe: nat, toUnsafe: nat, alarm: bool)
      requires Valid()
      modifies Repr
      ensures Valid() && published == old(published) && isInactive == old(isInactive) && hasLastStats == old(hasLastStats)
      ensures Trends() == old(SensedTrends(values)) && Views() == S.Acted(old(View()), Trends())
      ensures toSafe > 0 <==> exists i :: 0 <= i < |switchers| && S.AsksFor(old(View()), Trends(), i, S.SAFE)
      ensures toUnsafe == |switchers| <==> forall i :: 0 <= i < |switchers| ==> S.AsksFor(old(View()), Trends(), i, S.UNSAFE)
      ensures alarm <==> exists i :: 0 <= i < |switchers| && Views()[i].status.state == Alarm
    {
      hide S.Act, Sensed, Valid, Views, Trends, Configs, SensedTrends, Asking, S.Acted, S.AsksFor;
      ghost var asked;
      toSafe, toUnsafe, alarm, asked := ActEach(values);
      AskingBounds(asked, S.SAFE);
      AskingBounds(asked, S.UNSAFE);
      ActedOutcome(old(View()), Trends(), Views(), asked);
    }

    method ActEach(values: map<Target, real>) returns (toSafe: nat, toUnsafe: nat, alarm: bool, ghost asked: seq<Option<int>>)
      requires Valid()
      modifies Repr
      ensures Valid() && published == old(published) && isInactive == old(isInactive) && hasLastStats == old(hasLastStats)
      ensures |asked| == |switchers| && toSafe == Asking(asked, S.SAFE) && toUnsafe == Asking(asked, S.UNSAFE)
      ensures Trends() == old(SensedTrends(values))
      ensures forall j :: 0 <= j < |switchers| ==> (Views()[j], asked[j]) == S.Act(Configs()[j], old(Views())[j], old(SensedTrends(values))[j])
      ensures alarm <==> exists j :: 0 <= j < |switchers| && Views()[j].status.state == Alarm
    {
      hide S.Act, Sensed, Valid, Monitor.View, Asking;
      toSafe, toUnsafe, alarm, asked := 0, 0, false, [];
      ghost var before, trends := Views(), SensedTrends(values);
      AskingBounds(asked, S.SAFE);
      AskingBounds(asked, S.UNSAFE);
      for i := 0 to |switchers|
        invariant Valid() && published == old(published) && isInactive == old(isInactive) && hasLastStats == old(hasLastStats)
        invariant |asked| == i
        invariant forall j :: 0 <= j < i ==> switchers[j].monitor.isTrend == trends[j]
        invariant forall j :: 0 <= j < i ==> (switchers[j].View(), asked[j]) == S.Act(switchers[j].monitor.config, before[j], trends[j])
        invariant forall j :: i <= j < |switchers| ==> switchers[j].View() == before[j]
        invariant forall j :: i <= j < |switchers| ==> Sensed(switchers[j].monitor.View(), values).isTrend == trends[j]
        invariant toSafe == Asking(asked, S.SAFE) && toUnsafe == Asking(asked, S.UNSAFE)
        invariant alarm <==> exists j :: 0 <= j < i && switchers[j].View().status.state == Alarm
      {
        var sa := ActOne(i, values);
        AskingNext(asked, sa, S.SAFE);
        AskingNext(asked, sa, S.UNSAFE);
        asked := asked + [sa];
        if sa == Some(0) {
          toSafe := toSafe + 1;
        } else if sa == Some(1) {
          toUnsafe := toUnsafe + 1;
        }
        if switchers[i].monitor.state == Alarm {
          alarm := true;
        }
      }
      ghost var views := Views();
      assert forall j :: 0 <= j < |switchers| ==> views[j] == switchers[j].View();
    }

    method ForceOne(i: nat, algo: int)
      requires Valid() && i < |switchers|
      modifies Repr
      ensures Valid() && published == old(published) && isInactive == old(isInactive) && hasLastStats == old(hasLastStats)
      ensures switchers[i].View() == S.Force(old(switchers[i].View()), algo)
      ensures forall j :: 0 <= j < |switchers| && j != i ==> switchers[j].View() == old(switchers[j].View())
      ensures forall j :: 0 <= j < |switchers| ==> switchers[j].monitor.isTrend == old(switchers[j].monitor.isTrend)
    {
      hide S.Force;
      switchers[i].ForceAlgo(algo);
    }

    /** Switchers of the other algorithm are forced to this one. */
    method ForceAll(algo: int)
      requires Valid()
      modifies Repr
      ensures Valid() && published == old(published) && isInactive == old(isInactive) && hasLastStats == old(hasLastStats)
      ensures Views() == S.ForceAll(old(Views()), algo) && Trends() == old(Trends())
    {
      hide S.Force, Valid;
      for i := 0 to |switchers|
        invariant Valid() && published == old(published) && isInactive == old(isInactive) && hasLastStats == old(hasLastStats)
        invariant forall j :: 0 <= j < i ==>
          switchers[j].View() == if old(switchers[j].View()).algo != algo then S.Force(old(switchers[j].View()), algo) else old(switchers[j].View())
        invariant forall j :: i <= j < |switchers| ==> switchers[j].View() == old(switchers[j].View())
        invariant forall j :: 0 <= j < |switchers| ==> switchers[j].monitor.isTrend == old(switchers[j].monitor.isTrend)
      {
        if switchers[i].algo != algo {
          ForceOne(i, algo);
        }
      }
    }

    /** Publishes a switch action and forgets the last statistics. */
    method PublishSwitch(algo: int)
      requires Valid()
      modifies Repr
      ensures Valid() && Views() == old(Views()) && Trends() == old(Trends()) && isInactive == old(isInactive)
      ensures published == old(published) + [algo] && !hasLastStats
    {
      published := published + [algo];
      hasLastStats := false;
    }

    /** One decision of the agent on new statistics. */
    method Decide(values: map<Target, real>)
      requires Valid()
      modifies Repr
      ensures Valid() && isInactive == old(isInactive)
      ensures View() == S.Decide(old(View()), old(SensedTrends(values)))
      ensures Trends() == old(SensedTrends(values))
      ensures hasLastStats == (old(hasLastStats) && published == old(published))
    {
      hide S.Act, S.Force, Sensed, Valid, Monitor.View, S.Acted, S.AsksFor, S.ForceAll;
      if |switchers| == 0 {
        NoSwitchers();
        return;
      }
      var toSafe, toUnsafe, alarm := ActAll(values);
      if toSafe > 0 && !alarm {
        ForceAll(0);
        PublishSwitch(0);
      } else if toUnsafe == |switchers| && !alarm {
        ForceAll(1);
        PublishSwitch(1);
      }
    }

    lemma NoSwitchers()
      requires Valid() && |switchers| == 0
      ensures S.Decide(View(), []) == View() && Trends() == []
      ensures forall values :: SensedTrends(values) == []
    {
    }

    /** Activating an agent with switchers publishes the unsafe choice whatever their states are. */
    method ChangeStatus(inactive: bool)
      requires Valid()
      modifies this
      ensures Valid() && Views() == old(Views())
      ensures isInactive == (inactive || (old(isInactive) && switchers == []))
      ensures published == old(published) + if !inactive && switchers != [] then [S.UNSAFE] else []
    {
      if inactive {
        isInactive := true;
      } else if switchers != [] {
        isInactive := false;
        published := published + [1];
      }
    }
  }
}
