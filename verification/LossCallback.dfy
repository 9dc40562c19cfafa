/** The loss callback: which encoder actions it sends when its monitor changes state. */
module LossCallbacks {
  import opened Options
  import opened Monitors
  import opened SafetyAgents
  import F = Feeds
  import FI = FeedInvariants

  datatype Setting = MaxBitrate | Framerate | Resolution | Fec

  /** A configured action value: a number, or a size written as width x height. */
  datatype Value = Number(n: real) | Size(width: int, height: int)

  /** A value as it is sent. */
  datatype Sent = SentNumber(n: int) | SentSize(width: int, height: int)

  const BITRATES := [700, 1000, 1500, 2000, 3000, 4000, 6000, 8000, 10000]
  const FRAMERATES := [10, 15, 20, 25, 30]
  const FECS := [0, 10, 20, 50, 75, 100]
  const WIDTHS := [480, 640, 1280, 1920, 3840]
  const HEIGHTS := [360, 480, 720, 1080, 2160]

  /** The numbers a value is compared with; for resolutions their widths. */
  function Range(key: Setting): (r: seq<int>)
    ensures Ascending(r) && r != [] && r[0] >= 0
  {
    match key
    case MaxBitrate => BITRATES
    case Framerate => FRAMERATES
    case Resolution => WIDTHS
    case Fec => FECS
  }

  predicate Ascending(r: seq<int>)
  {
    forall i, j :: 0 <= i < j < |r| ==> r[i] < r[j]
  }

  /** Truncation towards zero. */
  function Truncated(x: real): int
  {
    if x >= 0.0 then x.Floor else -(-x).Floor
  }

  function Distance(x: int, v: int): int
  {
    if x >= v then x - v else v - x
  }

  /** Position i is the first of the positions nearest to v. */
  ghost predicate FirstNearest(r: seq<int>, v: int, i: nat)
  {
    && i < |r|
    && (forall j :: 0 <= j < |r| ==> Distance(r[i], v) <= Distance(r[j], v))
    && (forall j :: 0 <= j < i ==> Distance(r[i], v) < Distance(r[j], v))
  }

  /** The position of the member nearest to v, the first one on a tie. */
  function Nearest(r: seq<int>, v: int): (i: nat)
    requires r != []
    ensures FirstNearest(r, v, i)
  {
    if |r| == 1 then 0
    else
      var n := |r| - 1;
      var i := Nearest(r[..n], v);
      assert r[..n][i] == r[i];
      assert forall j :: 0 <= j < n ==> r[..n][j] == r[j];
      if Distance(r[n], v) < Distance(r[i], v) then n else i
  }

  method FindNearest(r: seq<int>, v: int) returns (i: nat)
    requires r != []
    ensures i == Nearest(r, v)
  {
    i := 0;
    for n := 1 to |r|
      invariant i == Nearest(r[..n], v)
    {
      assert r[..n + 1][..n] == r[..n];
      if Distance(r[n], v) < Distance(r[i], v) {
        i := n;
      }
    }
    assert r[..|r|] == r;
  }

  /** In an ascending range a larger value never has an earlier nearest position, and ties go to the lower number. */
  lemma NearestMonotone(r: seq<int>, v: int, w: int)
    requires r != [] && Ascending(r) && v <= w
    ensures Nearest(r, v) <= Nearest(r, w) && r[Nearest(r, v)] <= r[Nearest(r, w)]
  {
    var i, j := Nearest(r, v), Nearest(r, w);
    if j < i {
      StaysCloser(r[j], r[i], v, w);
    }
  }

  lemma StaysCloser(x: int, y: int, v: int, w: int)
    requires x < y && v <= w && Distance(y, v) < Distance(x, v)
    ensures Distance(y, w) < Distance(x, w)
  {
  }

  lemma NearestToMember(r: seq<int>, i: nat)
    requires Ascending(r) && i < |r|
    ensures Nearest(r, r[i]) == i
  {
    var j := Nearest(r, r[i]);
    assert Distance(r[j], r[i]) <= Distance(r[i], r[i]);
  }

  /** The number that decides what is sent: the truncated value or the width. */
  function Deciding(value: Value): int
  {
    match value
    case Number(n) => Truncated(n)
    case Size(w, _) => w
  }

  /** The i-th member of an action's range. */
  function Member(key: Setting, i: nat): Sent
    requires i < |Range(key)|
  {
    if key == Resolution then SentSize(WIDTHS[i], HEIGHTS[i]) else SentNumber(Range(key)[i])
  }

  /** What is sent for a value: the member of the range nearest to it, or nothing if the kinds differ. */
  function ToAction(key: Setting, value: Value): Option<Sent>
  {
    if key == Resolution <==> value.Size? then Some(Member(key, Nearest(Range(key), Deciding(value)))) else None
  }

  function ToActions(values: map<Setting, Value>): map<Setting, Sent>
  {
    map key | key in values && ToAction(key, values[key]).Some? :: ToAction(key, values[key]).value
  }

  // ----- back-off -----

  /** Three quarters, once more for each failed recovery. */
  function Factor(failed: nat): (f: real)
    ensures 0.0 < f <= 0.75
  {
    if failed == 0 then 0.75 else 0.75 * Factor(failed - 1)
  }

  function Reduced(x: real, factor: real): real
  {
    x * factor
  }

  function Scaled(value: Value, factor: real): Value
  {
    match value
    case Number(n) => Number(Reduced(n, factor))
    case Size(w, h) => Size(Truncated(Reduced(w as real, factor)), Truncated(Reduced(h as real, factor)))
  }

  function ScaledAll(values: map<Setting, Value>, factor: real): map<Setting, Value>
  {
    map key | key in values :: Scaled(values[key], factor)
  }

  lemma {:induction false} FactorFalls(failed: nat, failed': nat)
    requires failed <= failed'
    ensures Factor(failed') <= Factor(failed)
    decreases failed'
  {
    if failed < failed' {
      FactorFalls(failed, failed' - 1);
    }
  }

  /** Factors multiply: with the first one of three quarters, the n-th is three quarters to the power of n + 1. */
  lemma {:induction false} FactorsMultiply(m: nat, n: nat)
    ensures Factor(0) == 0.75 && Factor(m + n + 1) == Factor(m) * Factor(n)
  {
    if m > 0 {
      FactorsMultiply(m - 1, n);
      assert Factor(m - 1 + n + 1) == Factor(m + n);
      Regroup(0.75, Factor(m - 1), Factor(n));
    }
  }

  lemma Regroup(x: real, y: real, z: real)
    ensures x * (y * z) == (x * y) * z
  {
  }

  lemma FactorFallsStrictly(failed: nat)
    ensures 0.0 < Factor(failed + 1) < Factor(failed)
  {
  }

  /** A truncated value is the nearest integer on the side of zero. */
  lemma TruncatedIs(x: real)
    ensures var n := Truncated(x) as real; if x >= 0.0 then n <= x < n + 1.0 && n >= 0.0 else n - 1.0 < x <= n && n <= 0.0
  {
  }

  /** The number or width that a setting's value amounts to after some failed attempts decides what is sent: the first nearest member. */
  lemma SendsNearest(key: Setting, value: Value, failed: nat, amount: real)
    requires key == Resolution <==> value.Size?
    requires amount == Amount(value) * Factor(failed)
    ensures var sent := ToAction(key, Scaled(value, Factor(failed)));
      exists i :: FirstNearest(Range(key), Truncated(amount), i) && sent == Some(Member(key, i))
  {
    hide Factor, Scaled, Truncated, Reduced, Deciding, ToAction, Member, Amount, Nearest;
    var f := Factor(failed);
    ScaledKind(value, f);
    DecidingIs(value, f);
    SendsMember(key, Scaled(value, f));
    ReducedIs(Amount(value), f, amount);
    assert Deciding(Scaled(value, f)) == Truncated(amount);
    var i: nat :| FirstNearest(Range(key), Deciding(Scaled(value, f)), i) && ToAction(key, Scaled(value, f)) == Some(Member(key, i));
    assert FirstNearest(Range(key), Truncated(amount), i);
  }

  lemma ReducedIs(x: real, f: real, y: real)
    requires y == x * f
    ensures Reduced(x, f) == y
  {
  }

  lemma SendsMember(key: Setting, value: Value)
    requires key == Resolution <==> value.Size?
    ensures exists i :: FirstNearest(Range(key), Deciding(value), i) && ToAction(key, value) == Some(Member(key, i))
  {
    var i := Nearest(Range(key), Deciding(value));
    hide Nearest, Deciding, Member, FirstNearest;
    assert FirstNearest(Range(key), Deciding(value), i) && ToAction(key, value) == Some(Member(key, i));
  }

  /** A smaller factor decides for the same or an earlier position; a negative value always for the first. */
  lemma SmallerFactor(x: real, f: real, g: real)
    requires 0.0 < g <= f
    ensures var v, w := Truncated(Reduced(x, g)), Truncated(Reduced(x, f)); v <= w || (v <= 0 && w <= 0)
  {
    hide Truncated;
    var p, q := Reduced(x, g), Reduced(x, f);
    assert if x >= 0.0 then 0.0 <= p <= q else p <= 0.0 && q <= 0.0;
    TruncationMonotone(p, q);
  }

  lemma TruncationMonotone(p: real, q: real)
    ensures 0.0 <= p <= q ==> Truncated(p) <= Truncated(q)
    ensures p <= 0.0 ==> Truncated(p) <= 0
    ensures q <= 0.0 ==> Truncated(q) <= 0
  {
  }

  lemma NearestToNonPositive(r: seq<int>, v: int)
    requires r != [] && Ascending(r) && r[0] >= 0 && v <= 0
    ensures Nearest(r, v) == 0
  {
    assert forall k :: 0 < k < |r| ==> Distance(r[0], v) < Distance(r[k], v);
  }

  /** a is at most b: the same kind of value, with number or width at most as large. */
  predicate NotAbove(a: Sent, b: Sent)
  {
    match a
    case SentNumber(n) => b.SentNumber? && n <= b.n
    case SentSize(w, h) => b.SentSize? && w <= b.width && h <= b.height
  }

  predicate OfRange(key: Setting, a: Sent)
  {
    exists i :: 0 <= i < |Range(key)| && a == Member(key, i)
  }

  lemma PositionInRange(key: Setting, i: nat)
    requires i < |Range(key)|
    ensures OfRange(key, Member(key, i))
  {
  }

  lemma MembersAscend(key: Setting, i: nat, j: nat)
    requires i <= j < |Range(key)|
    ensures NotAbove(Member(key, i), Member(key, j))
  {
    assert forall m, n :: 0 <= m <= n < |HEIGHTS| ==> HEIGHTS[m] <= HEIGHTS[n];
  }

  /**
   Back-off: after more failed recoveries the value sent for an action is never higher, it is
   always a member of the range, and whether one is sent does not depend on the failures.
   */
  lemma BackOff(key: Setting, value: Value, failed: nat, failed': nat)
    requires failed <= failed'
    ensures var a, a' := ToAction(key, Scaled(value, Factor(failed))), ToAction(key, Scaled(value, Factor(failed')));
      (a.Some? <==> a'.Some?) && (a.Some? ==> OfRange(key, a.value) && OfRange(key, a'.value) && NotAbove(a'.value, a.value))
  {
    hide Factor, Nearest, Deciding, Scaled, Range, Member, Ascending, NotAbove, OfRange;
    var f, g := Factor(failed), Factor(failed');
    ScaledKind(value, f);
    ScaledKind(value, g);
    PositionBacksOff(key, value, failed, failed');
    var i, j := Nearest(Range(key), Deciding(Scaled(value, g))), Nearest(Range(key), Deciding(Scaled(value, f)));
    PositionInRange(key, i);
    PositionInRange(key, j);
    MembersAscend(key, i, j);
  }

  lemma PositionBacksOff(key: Setting, value: Value, failed: nat, failed': nat)
    requires failed <= failed'
    ensures Nearest(Range(key), Deciding(Scaled(value, Factor(failed')))) <= Nearest(Range(key), Deciding(Scaled(value, Factor(failed))))
  {
    var f, g := Factor(failed), Factor(failed');
    FactorFalls(failed, failed');
    DecidingScaled(value, f, g);
    hide Factor, Nearest, Deciding, Scaled, Range, Ascending;
    PositionFalls(Range(key), Deciding(Scaled(value, g)), Deciding(Scaled(value, f)));
  }

  lemma ScaledKind(value: Value, f: real)
    ensures Scaled(value, f).Size? <==> value.Size?
  {
  }

  lemma DecidingScaled(value: Value, f: real, g: real)
    requires 0.0 < g <= f
    ensures var v, w := Deciding(Scaled(value, g)), Deciding(Scaled(value, f));
      v <= w || (v <= 0 && w <= 0)
  {
    hide Truncated, Deciding, Scaled, Amount;
    DecidingIs(value, f);
    DecidingIs(value, g);
    SmallerFactor(Amount(value), f, g);
  }

  function Amount(value: Value): real
  {
    match value
    case Number(n) => n
    case Size(w, _) => w as real
  }

  lemma DecidingIs(value: Value, f: real)
    ensures Deciding(Scaled(value, f)) == Truncated(Reduced(Amount(value), f))
  {
    hide Truncated, Reduced;
  }

  lemma PositionFalls(r: seq<int>, v: int, w: int)
    requires r != [] && Ascending(r) && r[0] >= 0 && (v <= w || (v <= 0 && w <= 0))
    ensures Nearest(r, v) <= Nearest(r, w) && r[Nearest(r, v)] <= r[Nearest(r, w)]
  {
    if v <= w {
      NearestMonotone(r, v, w);
    } else {
      NearestToNonPositive(r, v);
      NearestToNonPositive(r, w);
    }
  }

  /** Healthy values that are members of their ranges are sent as they are. */
  lemma HealthyValuesAreSent(healthy: map<Setting, Value>, members: map<Setting, nat>)
    requires members.Keys == healthy.Keys
    requires forall key :: key in healthy ==> members[key] < |Range(key)|
    requires forall key :: key in healthy ==>
      (key == Resolution <==> healthy[key].Size?) && Deciding(healthy[key]) == Range(key)[members[key]]
    ensures ToActions(healthy) == map key | key in healthy :: Member(key, members[key])
  {
    hide ToAction, Member, Deciding, Range;
    forall key | key in healthy ensures ToAction(key, healthy[key]) == Some(Member(key, members[key])) {
      MemberIsSent(key, healthy[key], members[key]);
    }
  }

  // ----- the callback as an object -----

  const ALARM_ACTIONS: map<Setting, Value> :=
    map[MaxBitrate := Number(1000.0), Framerate := Number(10.0), Resolution := Size(640, 480), Fec := Number(0.0)]

  function AlarmValues(healthy: map<Setting, Value>): map<Setting, Value>
  {
    map key | key in healthy && key in ALARM_ACTIONS :: ALARM_ACTIONS[key]
  }

  /** What is sent when the monitor has changed state (or failed a recovery), and the factor afterwards. */
  function Response(healthy: map<Setting, Value>, factor: real, s: Status): (Option<map<Setting, Sent>>, real)
    requires s.failed >= 0
  {
    match s.state
    case Healthy => (Some(ToActions(healthy)), factor)
    case Recovery =>
      var f := Factor(s.failed);
      if f == factor && s.failed > 0 then (None, factor) else (Some(ToActions(ScaledAll(healthy, f))), f)
    case Alarm => (Some(ToActions(AlarmValues(healthy))), factor)
  }

  /** The callback's monitor and the factor it scaled by last. */
  datatype Reacting = Reacting(status: Status, factor: real)

  /** One step of the callback: it answers a change of state or another failed recovery. */
  function React(c: Config, healthy: map<Setting, Value>, r: Reacting, trend: bool): (Reacting, Option<map<Setting, Sent>>)
    requires r.status.failed >= 0
  {
    var (s, code) := StepWithCode(c, r.status, trend);
    FailuresCount(c, r.status, trend);
    if code > 0 then
      var (sent, f) := Response(healthy, r.factor, s);
      (Reacting(s, f), sent)
    else (Reacting(s, r.factor), None)
  }

  /** Where a run of steps leads. */
  function Reacted(c: Config, healthy: map<Setting, Value>, r: Reacting, trends: seq<bool>): (r': Reacting)
    requires r.status.failed >= 0
    ensures r'.status.failed >= 0
  {
    if trends == [] then r
    else
      var before := Reacted(c, healthy, r, trends[..|trends| - 1]);
      FailuresCount(c, before.status, trends[|trends| - 1]);
      React(c, healthy, before, trends[|trends| - 1]).0
  }

  /** What step i of a run sends. */
  function SentIn(c: Config, healthy: map<Setting, Value>, r: Reacting, trends: seq<bool>, i: nat): Option<map<Setting, Sent>>
    requires r.status.failed >= 0 && i < |trends|
  {
    React(c, healthy, Reacted(c, healthy, r, trends[..i]), trends[i]).1
  }

  ghost predicate EndsInRecovery(c: Config, healthy: map<Setting, Value>, r: Reacting, trends: seq<bool>, k: nat)
    requires r.status.failed >= 0 && k < |trends|
  {
    Reacted(c, healthy, r, trends[..k + 1]).status.state == Recovery
  }

  /** Every step from i to j ends in recovery. */
  ghost predicate InRecovery(c: Config, healthy: map<Setting, Value>, r: Reacting, trends: seq<bool>, i: nat, j: nat)
    requires r.status.failed >= 0 && j < |trends|
  {
    forall k :: i <= k <= j ==> EndsInRecovery(c, healthy, r, trends, k)
  }

  lemma ReactedNext(c: Config, healthy: map<Setting, Value>, r: Reacting, trends: seq<bool>, k: nat)
    requires r.status.failed >= 0 && k < |trends|
    ensures Reacted(c, healthy, r, trends[..k + 1]) == React(c, healthy, Reacted(c, healthy, r, trends[..k]), trends[k]).0
  {
    assert trends[..k + 1][..k] == trends[..k];
  }

  /** In recovery the factor is the one for the failures so far. */
  ghost predicate FactorStands(c: Config, r: Reacting)
  {
    Inv(c, r.status) && (r.status.state == Recovery ==> r.factor == Factor(r.status.failed))
  }

  lemma ReactKeepsFactor(c: Config, healthy: map<Setting, Value>, r: Reacting, trend: bool)
    requires FactorStands(c, r)
    ensures FactorStands(c, React(c, healthy, r, trend).0)
  {
    StepKeepsInv(c, r.status, trend);
    CodeMeans(c, r.status, trend);
    hide Factor, ToActions, Inv;
  }

  lemma {:induction false} FactorStandsOverRuns(c: Config, healthy: map<Setting, Value>, trends: seq<bool>)
    ensures FactorStands(c, Reacted(c, healthy, Reacting(INITIAL, Factor(0)), trends))
  {
    hide React;
    var r := Reacting(INITIAL, Factor(0));
    if trends != [] {
      FactorStandsOverRuns(c, healthy, trends[..|trends| - 1]);
      hide FactorStands;
      ReactKeepsFactor(c, healthy, Reacted(c, healthy, r, trends[..|trends| - 1]), trends[|trends| - 1]);
    }
  }

  /**
   What a step sends, in terms of what happens to the monitor: the healthy actions themselves when
   it gets healthy, the scaled ones when it enters recovery and again, scaled once more, whenever
   another attempt fails, and the alarm values in alarm. In all other steps it sends nothing.
   */
  lemma SendsExactly(c: Config, healthy: map<Setting, Value>, r: Reacting, trend: bool)
    requires FactorStands(c, r)
    ensures var (r', sent) := React(c, healthy, r, trend);
      var s, s' := r.status, r'.status;
      && s.failed >= 0 && s'.failed >= 0
      && (s'.state == Healthy != s.state ==> sent == Some(ToActions(healthy)))
      && (s'.state == Alarm != s.state ==> sent == Some(map key | key in healthy :: AlarmSent(key)))
      && (s'.state == Recovery != s.state ==> sent == Some(ToActions(ScaledAll(healthy, Factor(0)))))
      && (s'.state == s.state == Recovery && s'.failed > s.failed ==>
            s'.failed == s.failed + 1 && sent == Some(ToActions(ScaledAll(healthy, Factor(s.failed + 1)))))
      && (s'.state == s.state == Recovery && s'.failed == s.failed && sent.Some? ==>
            s.failed == 0 && s.failedIncreased && sent == Some(ToActions(ScaledAll(healthy, Factor(0)))))
      && (s'.state == s.state != Recovery ==> sent == None)
  {
    StepKeepsInv(c, r.status, trend);
    CodeMeans(c, r.status, trend);
    var s' := StepWithCode(c, r.status, trend).0;
    if s'.state == Alarm {
      AlarmValuesAreSent(healthy, r.factor, s');
    }
    FactorFallsStrictly(r.status.failed);
    EntersClean(c, r.status, trend);
    hide Factor, ToActions, AlarmSent, AlarmValues, Inv;
  }

  /** A recovery begins without failures, and a step adds at most one. */
  lemma EntersClean(c: Config, s: Status, trend: bool)
    requires Inv(c, s)
    ensures var s' := StepWithCode(c, s, trend).0;
      && (s'.state == Recovery != s.state ==> s'.failed == 0)
      && (s'.state == s.state == Recovery ==> s.failed <= s'.failed <= s.failed + 1)
  {
  }

  /** A step that ends in recovery sends, if anything, the healthy actions scaled for the failures so far. */
  lemma RecoverySends(c: Config, healthy: map<Setting, Value>, r: Reacting, trend: bool)
    requires r.status.failed >= 0 && React(c, healthy, r, trend).0.status.state == Recovery
    ensures var (s, sent) := React(c, healthy, r, trend);
      && s.status.failed >= 0
      && (sent.Some? ==> sent.value == ToActions(ScaledAll(healthy, Factor(s.status.failed))))
      && (r.status.state == Recovery ==> s.status.failed >= r.status.failed)
  {
    FailuresCount(c, r.status, trend);
    hide ToActions, ScaledAll, Factor;
  }

  lemma {:induction false} FailuresGrow(c: Config, healthy: map<Setting, Value>, r: Reacting, trends: seq<bool>, i: nat, j: nat)
    requires r.status.failed >= 0 && i <= j < |trends| && InRecovery(c, healthy, r, trends, i, j)
    ensures Reacted(c, healthy, r, trends[..i + 1]).status.failed <= Reacted(c, healthy, r, trends[..j + 1]).status.failed
    decreases j
  {
    hide React, Reacted;
    if i < j {
      FailuresGrow(c, healthy, r, trends, i, j - 1);
      assert EndsInRecovery(c, healthy, r, trends, j - 1) && EndsInRecovery(c, healthy, r, trends, j);
      assert trends[..j - 1 + 1] == trends[..j];
      ReactedNext(c, healthy, r, trends, j);
      RecoverySends(c, healthy, Reacted(c, healthy, r, trends[..j]), trends[j]);
    }
  }

  lemma ScaledActions(healthy: map<Setting, Value>, failed: nat, failed': nat)
    requires failed <= failed'
    ensures var a, a' := ToActions(ScaledAll(healthy, Factor(failed))), ToActions(ScaledAll(healthy, Factor(failed')));
      a'.Keys == a.Keys && forall key :: key in a ==> NotAbove(a'[key], a[key])
  {
    hide Factor, Scaled, ToAction, NotAbove;
    forall key | key in healthy
      ensures var a, a' := ToAction(key, Scaled(healthy[key], Factor(failed))), ToAction(key, Scaled(healthy[key], Factor(failed')));
        (a.Some? <==> a'.Some?) && (a.Some? ==> NotAbove(a'.value, a.value))
    {
      BackOff(key, healthy[key], failed, failed');
    }
  }

  /**
   Back-off over runs: as long as the callback stays in recovery, whatever it sends is for the
   same settings as anything it sent before during that recovery, and no value is higher.
   */
  lemma BacksOffInRecovery(c: Config, healthy: map<Setting, Value>, r: Reacting, trends: seq<bool>, i: nat, j: nat)
    requires r.status.failed >= 0 && i <= j < |trends| && InRecovery(c, healthy, r, trends, i, j)
    requires SentIn(c, healthy, r, trends, i).Some? && SentIn(c, healthy, r, trends, j).Some?
    ensures var a, b := SentIn(c, healthy, r, trends, i).value, SentIn(c, healthy, r, trends, j).value;
      b.Keys == a.Keys && forall key :: key in a ==> NotAbove(b[key], a[key])
  {
    FailuresGrow(c, healthy, r, trends, i, j);
    assert EndsInRecovery(c, healthy, r, trends, i) && EndsInRecovery(c, healthy, r, trends, j);
    hide React, Reacted, NotAbove, ToActions, ScaledAll, Factor;
    ReactedNext(c, healthy, r, trends, i);
    ReactedNext(c, healthy, r, trends, j);
    RecoverySends(c, healthy, Reacted(c, healthy, r, trends[..i]), trends[i]);
    RecoverySends(c, healthy, Reacted(c, healthy, r, trends[..j]), trends[j]);
    ScaledActions(healthy, Reacted(c, healthy, r, trends[..i + 1]).status.failed, Reacted(c, healthy, r, trends[..j + 1]).status.failed);
  }

  /** Whatever the callback sends in any state is a member of the action's range; a maximum bitrate is at least 700. */
  lemma ResponseInRange(healthy: map<Setting, Value>, factor: real, s: Status, key: Setting)
    requires s.failed >= 0
    ensures var r := Response(healthy, factor, s).0;
      r.Some? && key in r.value ==>
        && key in healthy && OfRange(key, r.value[key])
        && (key == MaxBitrate ==> r.value[key].SentNumber? && 700 <= r.value[key].n <= 10000)
  {
    hide Factor, Scaled, OfRange, ToActions;
    var r := Response(healthy, factor, s).0;
    if r.Some? && key in r.value {
      ActionsInRange(healthy, key);
      ActionsInRange(ScaledAll(healthy, Factor(s.failed)), key);
      ActionsInRange(AlarmValues(healthy), key);
      if key == MaxBitrate { BitrateInRange(r.value[key]); }
    }
  }

  lemma ActionsInRange(values: map<Setting, Value>, key: Setting)
    ensures key in ToActions(values) ==> key in values && OfRange(key, ToActions(values)[key])
  {
    hide Nearest, Deciding, Member, Range;
  }

  lemma BitrateInRange(a: Sent)
    requires OfRange(MaxBitrate, a)
    ensures a.SentNumber? && 700 <= a.n <= 10000
  {
  }

  function AlarmSent(key: Setting): Sent
  {
    match key
    case MaxBitrate => SentNumber(1000)
    case Framerate => SentNumber(10)
    case Resolution => SentSize(640, 480)
    case Fec => SentNumber(0)
  }

  lemma AlarmActionIsSent(key: Setting)
    ensures key in ALARM_ACTIONS && ToAction(key, ALARM_ACTIONS[key]) == Some(AlarmSent(key))
  {
    hide ToAction, Nearest;
    match key
    case MaxBitrate => MemberIsSent(key, ALARM_ACTIONS[key], 1);
    case Framerate => MemberIsSent(key, ALARM_ACTIONS[key], 0);
    case Resolution => MemberIsSent(key, ALARM_ACTIONS[key], 1);
    case Fec => MemberIsSent(key, ALARM_ACTIONS[key], 0);
  }

  /** A member of the range is sent as it is. */
  lemma MemberIsSent(key: Setting, value: Value, i: nat)
    requires i < |Range(key)| && (key == Resolution <==> value.Size?) && Deciding(value) == Range(key)[i]
    ensures ToAction(key, value) == Some(Member(key, i))
  {
    NearestToMember(Range(key), i);
  }

  /** In alarm exactly the configured alarm values are sent: each is a member of its range. */
  lemma AlarmValuesAreSent(healthy: map<Setting, Value>, factor: real, s: Status)
    requires s.state == Alarm && s.failed >= 0
    ensures Response(healthy, factor, s).0 == Some(map key | key in healthy :: AlarmSent(key))
  {
    hide ToAction;
    forall key ensures key in ALARM_ACTIONS && ToAction(key, ALARM_ACTIONS[key]) == Some(AlarmSent(key)) {
      AlarmActionIsSent(key);
    }
    hide AlarmSent;
    assert ToActions(AlarmValues(healthy)) == map key | key in healthy :: AlarmSent(key);
  }

  lemma FailuresCount(c: Config, s: Status, trend: bool)
    requires s.failed >= 0
    ensures StepWithCode(c, s, trend).0.failed >= 0
  {
  }

  class LossTrendCallback {
    const monitor: Monitor
    const healthyActions: map<Setting, Value>
    var factor: real

    constructor (monitor: Monitor, healthyActions: map<Setting, Value>)
      ensures this.monitor == monitor && this.healthyActions == healthyActions && factor == Factor(0)
    {
      this.monitor, this.healthyActions, factor := monitor, healthyActions, 0.75;
    }

    method Act(values: map<Target, real>) returns (sent: Option<map<Setting, Sent>>)
      requires monitor.Valid() && this !in monitor.Repr && monitor.failedRecoveries >= 0
      modifies this, monitor.Repr
      ensures monitor.Valid() && monitor.View() == Sensed(old(monitor.View()), values).(status := monitor.StatusView())
      ensures monitor.failedRecoveries >= 0
      ensures (Reacting(monitor.StatusView(), factor), sent)
        == React(monitor.config, healthyActions, Reacting(old(monitor.StatusView()), old(factor)), monitor.isTrend)
    {
      hide Agrees, CheckedDetectors, CheckedTrends, Delivered, Sensed, ToActions, Factor, StepWithCode;
      monitor.Act(values);
      FailuresCount(monitor.config, monitor.StatusView(), monitor.isTrend);
      var res := monitor.CheckStateChange();
      if res > 0 {
        match monitor.state {
          case Healthy => sent := Some(ToActions(healthyActions));
          case Recovery => sent := OnRecovery();
          case Alarm => sent := Some(ToActions(AlarmValues(healthyActions)));
        }
      } else {
        sent := None;
      }
    }

    method OnRecovery() returns (sent: Option<map<Setting, Sent>>)
      requires monitor.state == Recovery && monitor.failedRecoveries >= 0
      modifies this`factor
      ensures (sent, factor) == Response(healthyActions, old(factor), monitor.StatusView())
    {
      hide Factor, ToActions;
      var newFactor := Factor(monitor.failedRecoveries);
      if newFactor == factor && monitor.failedRecoveries > 0 {
        return None;
      }
      factor := newFactor;
      var scaled: map<Setting, Value> := map[];
      var rest := healthyActions.Keys;
      while rest != {}
        invariant rest <= healthyActions.Keys && scaled.Keys == healthyActions.Keys - rest
        invariant forall key :: key in scaled ==> scaled[key] == Scaled(healthyActions[key], factor)
        decreases |rest|
      {
        var key :| key in rest;
        scaled := scaled[key := Scaled(healthyActions[key], factor)];
        rest := rest - {key};
      }
      assert scaled == ScaledAll(healthyActions, factor);
      return Some(ToActions(scaled));
    }
  }

  // ----- what it does to the controller's limits -----

  ghost predicate LimitsOrdered(t: F.Table)
  {
    && (F.BITRATE in t.initLimits ==> t.initLimits[F.BITRATE].0 <= 700.0)
    && (F.BITRATE in t.limits ==> t.limits[F.BITRATE].0 <= t.limits[F.BITRATE].1)
  }

  /** The actions carry only maximum bitrates the callback can send. */
  predicate FromCallback(action: F.Action)
  {
    action.MaxBitrate? ==> action.value >= 700.0
  }

  lemma ApplyKeepsLimits(t: F.Table, name: F.Name, action: F.Action)
    requires F.Structured(t) && (name in t.feeds || action.TurnOn?) && LimitsOrdered(t) && FromCallback(action)
    ensures LimitsOrdered(F.Apply(t, name, action).table)
  {
    FI.ApplyKeepsOtherLimits(t, name, action);
    hide F.AddFeed, F.RemoveFeed, F.ChangeAllocStatus, F.Structured;
  }

  /** Maximum bitrates from the callback keep the controller's bitrate limits ordered over every list of actions. */
  lemma {:induction false} CallbackKeepsLimits(t: F.Table, name: F.Name, actions: seq<F.Action>)
    requires F.Structured(t) && LimitsOrdered(t) && forall a :: a in actions ==> FromCallback(a)
    ensures LimitsOrdered(F.ApplyAll(t, name, actions).table)
    decreases actions
  {
    if !(actions == [] || (name !in t.feeds && !actions[0].TurnOn?)) {
      assert actions[0] in actions;
      F.ApplyStructured(t, name, actions[0]);
      ApplyKeepsLimits(t, name, actions[0]);
      var s := F.Apply(t, name, actions[0]);
      hide F.Apply, F.Structured, LimitsOrdered;
      if !s.raised { CallbackKeepsLimits(s.table, name, actions[1..]); }
    }
  }

  /** Commands whose maximum bitrates the callback can send, and whose user limits for the bitrate are ordered. */
  ghost predicate OrderedCommand(command: F.Command)
  {
    match command
    case ForFeed(_, actions) => forall a :: a in actions ==> FromCallback(a)
    case ForAll(generals) =>
      forall g :: g in generals ==> g.Limits? && F.BITRATE in g.bounds ==> g.bounds[F.BITRATE].0 <= g.bounds[F.BITRATE].1
  }

  lemma {:induction false} GeneralsKeepLimits(t: F.Table, generals: seq<F.General>)
    requires LimitsOrdered(t) && OrderedCommand(F.ForAll(generals))
    ensures LimitsOrdered(F.ApplyGenerals(t, generals).table)
    decreases generals
  {
    if generals != [] {
      assert generals[0] in generals;
      assert forall g :: g in generals[1..] ==> g in generals;
      hide F.NewWeights;
      var s := F.ApplyGeneral(t, generals[0]);
      assert LimitsOrdered(s.table);
      hide F.ApplyGeneral, LimitsOrdered;
      if !s.raised { GeneralsKeepLimits(s.table, generals[1..]); }
    }
  }

  /** Over every run of such commands, from an initial lower limit of at most 700, the bitrate limits stay ordered. */
  lemma {:induction false} RunKeepsLimitsOrdered(t: F.Table, commands: seq<F.Command>)
    requires F.Structured(t) && LimitsOrdered(t) && forall c :: c in commands ==> OrderedCommand(c)
    ensures F.Structured(FI.Run(t, commands).table) && LimitsOrdered(FI.Run(t, commands).table)
    decreases commands
  {
    if commands != [] {
      assert commands[0] in commands;
      FI.ExecuteStructured(t, commands[0]);
      var s := F.Execute(t, commands[0]);
      match commands[0] {
        case ForFeed(name, actions) => CallbackKeepsLimits(t, name, actions);
        case ForAll(generals) => GeneralsKeepLimits(t, generals);
      }
      hide F.Execute, F.Structured, LimitsOrdered, OrderedCommand;
      if !s.raised { RunKeepsLimitsOrdered(s.table, commands[1..]); }
    }
  }
}
