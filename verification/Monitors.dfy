/**
 The three-state monitor: what one step does to the state and its four counters, and what runs
 of steps and outside resets keep.
 */
module Monitors {

  datatype State = Healthy | Recovery | Alarm

  /** recovery_iterations, max_trends_during_recovery, failed_recoveries_to_trigger_alarm, alarm_iterations; -1 for None. */
  datatype Config = Config(maxRecovery: int, maxTrends: int, failuresToAlarm: int, maxAlarm: int)

  datatype Status = Status(
    state: State, recoveryIterations: int, trends: int, failed: int, failedIncreased: bool, alarmIterations: int)

  const INITIAL := Status(Healthy, 0, 0, 0, false, 0)

  /** Whether a recovery step ends the recovery, with its effects on the counters. */
  function Recovered(c: Config, s: Status, trend: bool): (Status, bool)
  {
    var n := s.recoveryIterations + 1;
    var t := s.trends + if trend then 1 else 0;
    if c.maxTrends >= 0 && t > c.maxTrends then
      (s.(recoveryIterations := 0, trends := 0, failed := s.failed + 1, failedIncreased := true), false)
    else if n < c.maxRecovery then (s.(recoveryIterations := n, trends := t), false)
    else (s.(recoveryIterations := 0, trends := 0, failed := 0), true)
  }

  /** Whether enough recoveries have failed for an alarm, which clears three counters. */
  function AlarmRaised(c: Config, s: Status): (Status, bool)
  {
    if c.failuresToAlarm >= 0 && s.failed >= c.failuresToAlarm
    then (s.(failed := 0, trends := 0, recoveryIterations := 0), true)
    else (s, false)
  }

  /** Whether the alarm has lasted long enough. */
  function AlarmEnded(c: Config, s: Status): (Status, bool)
  {
    if s.alarmIterations + 1 >= c.maxAlarm then (s.(alarmIterations := 0), true)
    else (s.(alarmIterations := s.alarmIterations + 1), false)
  }

  /** One step: the status after it and the code returned, 1 for a new state, 2 for another failed recovery, else 0. */
  function StepWithCode(c: Config, s: Status, trend: bool): (Status, int)
  {
    match s.state
    case Healthy => if trend then (s.(state := Recovery), 1) else (s, 0)
    case Recovery =>
      var (r, recovered) := Recovered(c, s, trend);
      if recovered then (r.(state := Healthy), 1)
      else
        var (a, raised) := AlarmRaised(c, r);
        if raised then (a.(state := Alarm), 1)
        else if a.failedIncreased then (a.(failedIncreased := false), 2)
        else (a, 0)
    case Alarm =>
      var (e, ended) := AlarmEnded(c, s);
      if ended then (e.(state := Recovery), 1) else (e, 0)
  }

  function Step(c: Config, s: Status, trend: bool): Status
  {
    StepWithCode(c, s, trend).0
  }

  /** A reset from outside: all counters but the alarm's start again. */
  function Forced(s: Status, healthy: bool): Status
  {
    s.(state := if healthy then Healthy else Recovery, recoveryIterations := 0, trends := 0, failed := 0)
  }

  // ----- the invariant -----

  function AtLeastOne(n: int): int
  {
    if n > 1 then n else 1
  }

  /** A recovery can fail: the trend budget is bounded and can be overrun before the recovery ends. */
  predicate CanFail(c: Config)
  {
    0 <= c.maxTrends < AtLeastOne(c.maxRecovery)
  }

  ghost predicate Inv(c: Config, s: Status)
  {
    && 0 <= s.trends <= s.recoveryIterations < AtLeastOne(c.maxRecovery)
    && 0 <= s.failed && (s.failed > 0 ==> CanFail(c))
    && (s.state != Recovery ==> s.recoveryIterations == s.trends == s.failed == 0)
    && (s.state != Alarm ==> s.alarmIterations == 0)
    && 0 <= s.alarmIterations < AtLeastOne(c.maxAlarm)
    && (c.maxTrends >= 0 ==> s.trends <= c.maxTrends)
    && (c.failuresToAlarm > 0 ==> s.failed < c.failuresToAlarm)
    && (c.failuresToAlarm == 0 ==> s.recoveryIterations == s.failed == 0)
  }

  /**
   In every reachable status the recovery, trend and failure counters are zero outside recovery,
   the alarm counter is zero outside alarm, and trends never outnumber recovery steps.
   */
  lemma StepKeepsInv(c: Config, s: Status, trend: bool)
    requires Inv(c, s)
    ensures Inv(c, Step(c, s, trend))
  {
  }

  lemma ForcedKeepsInv(c: Config, s: Status, healthy: bool)
    requires Inv(c, s) && s.state != Alarm
    ensures Inv(c, Forced(s, healthy))
  {
  }

  /**
   What the returned code says: 1 exactly if the state changed; 2 exactly if the monitor stays in
   recovery and this or an unreported earlier recovery attempt failed; and 0 otherwise.
   */
  lemma CodeMeans(c: Config, s: Status, trend: bool)
    requires Inv(c, s)
    ensures var (s', code) := StepWithCode(c, s, trend);
      && (code == 1 <==> s'.state != s.state)
      && (code == 2 <==> s.state == s'.state == Recovery && (s.failedIncreased || s'.failed > s.failed))
      && 0 <= code <= 2
  {
  }

  /** A failed attempt is counted once, reported in the same step or followed by an alarm, and starts the recovery anew. */
  lemma FailedAttempt(c: Config, s: Status, trend: bool)
    requires Inv(c, s) && s.state == Recovery && c.maxTrends >= 0
    requires s.trends + (if trend then 1 else 0) > c.maxTrends
    ensures var (s', code) := StepWithCode(c, s, trend);
      && s'.recoveryIterations == s'.trends == 0
      && if 0 <= c.failuresToAlarm <= s.failed + 1 then s'.state == Alarm && code == 1 && s'.failed == 0
         else s'.state == Recovery && code == 2 && s'.failed == s.failed + 1 && !s'.failedIncreased
  {
  }

  /** An attempt within its budget of trends goes on step by step and ends healthy with the last one, with or without a trend. */
  lemma ToleratedAttempt(c: Config, s: Status, trend: bool)
    requires Inv(c, s) && s.state == Recovery && c.failuresToAlarm != 0 && !s.failedIncreased
    requires c.maxTrends < 0 || s.trends + (if trend then 1 else 0) <= c.maxTrends
    ensures var (s', code) := StepWithCode(c, s, trend);
      if s.recoveryIterations + 1 < c.maxRecovery
      then code == 0 && s' == s.(recoveryIterations := s.recoveryIterations + 1, trends := s.trends + if trend then 1 else 0)
      else code == 1 && s' == s.(state := Healthy, recoveryIterations := 0, trends := 0, failed := 0)
  {
  }

  // ----- self-stabilisation -----

  /** How many steps without a trend it takes to become healthy. */
  function Rank(c: Config, s: Status): int
  {
    match s.state
    case Healthy => 0
    case Recovery => AtLeastOne(c.maxRecovery) - s.recoveryIterations
    case Alarm => AtLeastOne(c.maxAlarm) - s.alarmIterations + AtLeastOne(c.maxRecovery)
  }

  function Quiet(c: Config, s: Status, n: nat): Status
  {
    if n == 0 then s else Step(c, Quiet(c, s, n - 1), false)
  }

  /** Without trends no recovery is interrupted by an alarm that zero failures trigger. */
  predicate CanSettle(c: Config)
  {
    c.failuresToAlarm != 0 || c.maxRecovery <= 1
  }

  /**
   Without trends a monitor that can settle is healthy after exactly Rank steps, at most one full
   alarm and one full recovery, and stays healthy.
   */
  lemma {:induction false} SelfStabilises(c: Config, s: Status, n: nat)
    requires Inv(c, s) && CanSettle(c)
    ensures Inv(c, Quiet(c, s, n))
    ensures Rank(c, Quiet(c, s, n)) == if n < Rank(c, s) then Rank(c, s) - n else 0
    ensures Quiet(c, s, n).state == Healthy <==> n >= Rank(c, s)
    ensures 0 <= Rank(c, s) <= AtLeastOne(c.maxAlarm) + AtLeastOne(c.maxRecovery)
  {
    if n > 0 {
      SelfStabilises(c, s, n - 1);
      StepKeepsInv(c, Quiet(c, s, n - 1), false);
    }
  }

  /** A monitor that cannot settle, with zero failures to alarm and more than one recovery step, never gets healthy from outside. */
  lemma {:induction false} ZeroFailuresNeverSettle(c: Config, s: Status, n: nat)
    requires Inv(c, s) && !CanSettle(c) && s.state != Healthy
    ensures Inv(c, Quiet(c, s, n)) && Quiet(c, s, n).state != Healthy
  {
    if n > 0 {
      ZeroFailuresNeverSettle(c, s, n - 1);
      StepKeepsInv(c, Quiet(c, s, n - 1), false);
    }
  }

  // ----- alarms -----

  /** An input to a monitor: a step, or a reset from outside, which never comes during an alarm. */
  datatype Input = Tick(trend: bool) | Reset(healthy: bool)

  function After(c: Config, inputs: seq<Input>): Status
  {
    if inputs == [] then INITIAL
    else
      var s := After(c, inputs[..|inputs| - 1]);
      match inputs[|inputs| - 1]
      case Tick(trend) => Step(c, s, trend)
      case Reset(healthy) => if s.state == Alarm then s else Forced(s, healthy)
  }

  /** How many recovery steps saw a trend since the monitor was last reset or not in recovery. */
  function Evidence(c: Config, inputs: seq<Input>): nat
  {
    if inputs == [] then 0
    else
      var before := inputs[..|inputs| - 1];
      var last := inputs[|inputs| - 1];
      if After(c, before).state != Recovery || last.Reset? then 0
      else Evidence(c, before) + if last == Tick(true) then 1 else 0
  }

  lemma {:induction false} ReachableInv(c: Config, inputs: seq<Input>)
    ensures Inv(c, After(c, inputs))
  {
    if inputs != [] {
      ReachableInv(c, inputs[..|inputs| - 1]);
    }
  }

  /** From what the inputs leave, some number of steps without a trend ends healthy. */
  ghost predicate Stabilises(c: Config, inputs: seq<Input>)
  {
    exists n: nat :: Quiet(c, After(c, inputs), n).state == Healthy
  }

  /** Exactly the configurations with CanSettle stabilise from every reachable status. */
  lemma StabilisesIff(c: Config)
    ensures (forall inputs :: Stabilises(c, inputs)) <==> CanSettle(c)
  {
    if CanSettle(c) {
      forall inputs ensures Stabilises(c, inputs) {
        var s := After(c, inputs);
        ReachableInv(c, inputs);
        SelfStabilises(c, s, 0);
        var n: nat := Rank(c, s);
        SelfStabilises(c, s, n);
        assert Quiet(c, s, n).state == Healthy;
      }
    } else {
      TicksNext(c, 1);
      ReachableInv(c, Ticks(1));
      var s := After(c, Ticks(1));
      assert After(c, Ticks(0)) == INITIAL;
      forall n: nat ensures Quiet(c, s, n).state != Healthy {
        ZeroFailuresNeverSettle(c, s, n);
      }
      assert !Stabilises(c, Ticks(1));
    }
  }

  /** The trends it takes to fail n recoveries. */
  function Price(c: Config, n: int): int
  {
    n * (c.maxTrends + 1)
  }

  lemma PriceNext(c: Config, n: int)
    ensures Price(c, n + 1) == Price(c, n) + c.maxTrends + 1
    ensures Price(c, 0) == 0
    ensures n > 0 && c.maxTrends >= 0 ==> Price(c, n) >= 1
  {
  }

  lemma {:induction false} EvidenceCovers(c: Config, inputs: seq<Input>)
    requires c.failuresToAlarm >= 1 && c.maxTrends >= 0
    ensures var s := After(c, inputs);
      s.state == Recovery ==> Evidence(c, inputs) >= Price(c, s.failed) + s.trends
  {
    hide Price;
    PriceNext(c, 0);
    if inputs != [] {
      var before := inputs[..|inputs| - 1];
      ReachableInv(c, before);
      EvidenceCovers(c, before);
      PriceNext(c, After(c, before).failed);
    }
  }

  /**
   Entering an alarm takes evidence: since the monitor was last healthy, in alarm or reset, at least
   failuresToAlarm * (maxTrends + 1) recovery steps saw a trend.
   */
  lemma AlarmNeedsEvidence(c: Config, before: seq<Input>, trend: bool)
    requires c.failuresToAlarm >= 1 && c.maxTrends >= 0
    requires After(c, before).state == Recovery && After(c, before + [Tick(trend)]).state == Alarm
    ensures Evidence(c, before + [Tick(trend)]) >= Price(c, c.failuresToAlarm)
  {
    var inputs := before + [Tick(trend)];
    assert inputs[..|inputs| - 1] == before;
    hide Price;
    ReachableInv(c, before);
    EvidenceCovers(c, before);
    PriceNext(c, After(c, before).failed);
  }

  /** Exactly the configurations from which some run of steps reaches an alarm. */
  predicate CanAlarm(c: Config)
  {
    if c.failuresToAlarm < 0 then false
    else if c.failuresToAlarm == 0 then c.maxRecovery > 1 || c.maxTrends == 0
    else CanFail(c)
  }

  lemma {:induction false} NeverAlarms(c: Config, inputs: seq<Input>)
    requires !CanAlarm(c)
    ensures After(c, inputs).state != Alarm
  {
    if inputs != [] {
      var before := inputs[..|inputs| - 1];
      ReachableInv(c, before);
      NeverAlarms(c, before);
    }
  }

  function Ticks(n: nat): seq<Input>
  {
    seq(n, _ => Tick(true))
  }

  lemma TicksNext(c: Config, n: nat)
    requires n > 0
    ensures After(c, Ticks(n)) == Step(c, After(c, Ticks(n - 1)), true)
  {
    assert Ticks(n)[..n - 1] == Ticks(n - 1);
  }

  /** Under steady trends every maxTrends + 1 recovery steps fail the recovery once more. */
  lemma {:induction false} SteadyTrends(c: Config, n: nat, failed: nat, trends: nat)
    requires CanFail(c) && failed < c.failuresToAlarm && trends <= c.maxTrends
    requires n == 1 + Price(c, failed) + trends
    ensures var s := After(c, Ticks(n));
      s.state == Recovery && s.failed == failed && s.trends == s.recoveryIterations == trends
    decreases n
  {
    hide Price;
    PriceNext(c, failed);
    PriceNext(c, failed - 1);
    TicksNext(c, n);
    if n == 1 {
      assert After(c, Ticks(0)) == INITIAL;
    } else if trends > 0 {
      SteadyTrends(c, n - 1, failed, trends - 1);
    } else {
      SteadyTrends(c, n - 1, failed - 1, c.maxTrends);
    }
  }

  /** An alarm is reachable if and only if the configuration allows it; with an unlimited trend budget it needs zero failures to alarm. */
  lemma AlarmReachable(c: Config)
    ensures (exists inputs :: After(c, inputs).state == Alarm) <==> CanAlarm(c)
  {
    if CanAlarm(c) {
      if c.failuresToAlarm == 0 {
        TicksNext(c, 1);
        TicksNext(c, 2);
        assert After(c, Ticks(0)) == INITIAL;
        assert After(c, Ticks(2)).state == Alarm;
      } else {
        hide Price;
        PriceNext(c, c.failuresToAlarm - 1);
        PriceNext(c, 0);
        var n := 1 + Price(c, c.failuresToAlarm - 1) + c.maxTrends;
        SteadyTrends(c, n, c.failuresToAlarm - 1, c.maxTrends);
        TicksNext(c, n + 1);
        assert After(c, Ticks(n + 1)).state == Alarm;
      }
    }
    if inputs :| After(c, inputs).state == Alarm {
      if !CanAlarm(c) {
        NeverAlarms(c, inputs);
      }
    }
  }

  function Run(c: Config, s: Status, trends: seq<bool>): Status
  {
    if trends == [] then s else Step(c, Run(c, s, trends[..|trends| - 1]), trends[|trends| - 1])
  }

  /** An alarm lasts exactly max(1, alarm_iterations) steps, whatever the trends, and ends in recovery. */
  lemma {:induction false} AlarmLasts(c: Config, s: Status, trends: seq<bool>)
    requires Inv(c, s) && s.state == Alarm && s.alarmIterations == 0
    requires |trends| <= AtLeastOne(c.maxAlarm)
    ensures var s' := Run(c, s, trends);
      if |trends| < AtLeastOne(c.maxAlarm) then s' == s.(alarmIterations := |trends|)
      else s' == s.(state := Recovery)
  {
    if trends != [] {
      AlarmLasts(c, s, trends[..|trends| - 1]);
    }
  }
}
