/** The whole safety detector: the switchers' decision and, after it, the callbacks. */
module SafetyDetectors {
  import opened Options
  import opened SafetyAgents
  import opened LossCallbacks

  datatype Message = Switch(algo: int) | Encoder(actions: map<Setting, Sent>)

  /** A callback as a value. */
  datatype CallbackView = CallbackView(monitor: MonitorView, healthy: map<Setting, Value>, factor: real)

  /** What new statistics make of a callback, and what it asks the encoder for. */
  function Reacts(v: CallbackView, values: map<Target, real>): (CallbackView, Option<map<Setting, Sent>>)
    requires v.monitor.status.failed >= 0
  {
    var m := Sensed(v.monitor, values);
    var (r, sent) := React(m.config, v.healthy, Reacting(m.status, v.factor), m.isTrend);
    (v.(monitor := m.(status := r.status), factor := r.factor), sent)
  }

  lemma SensedKeeps(v: MonitorView, values: map<Target, real>)
    ensures Sensed(v, values).config == v.config && Sensed(v, values).status == v.status
  {
  }

  /** An answer without actions is not published. */
  function Answer(sent: Option<map<Setting, Sent>>): seq<Message>
  {
    if sent.Some? && sent.value != map[] then [Encoder(sent.value)] else []
  }

  ghost predicate Counting(vs: seq<CallbackView>)
  {
    forall i :: 0 <= i < |vs| ==> vs[i].monitor.status.failed >= 0
  }

  /** What the first n callbacks publish, in their order. */
  function Answers(vs: seq<CallbackView>, values: map<Target, real>, n: nat): seq<Message>
    requires n <= |vs| && Counting(vs)
  {
    if n == 0 then [] else Answers(vs, values, n - 1) + Answer(Reacts(vs[n - 1], values).1)
  }

  /** Later callbacks publish after earlier ones: what the first m publish begins what the first n do. */
  lemma {:induction false} AnswersInOrder(vs: seq<CallbackView>, values: map<Target, real>, m: nat, n: nat)
    requires m <= n <= |vs| && Counting(vs)
    ensures Answers(vs, values, m) <= Answers(vs, values, n)
    ensures |Answers(vs, values, n)| <= |Answers(vs, values, m)| + (n - m)
    decreases n
  {
    hide Reacts;
    if m < n {
      AnswersInOrder(vs, values, m, n - 1);
    }
  }

  /** The switch a decision publishes, if it does. */
  function Switches(before: seq<int>, after: seq<int>): seq<Message>
  {
    if |after| > |before| then [Switch(after[|after| - 1])] else []
  }

  ghost function CallbackObjects(cb: LossTrendCallback): set<object>
  {
    {cb} + cb.monitor.Repr
  }

  ghost function ViewOf(cb: LossTrendCallback): CallbackView
    reads cb, cb.monitor, Objects(cb.monitor.thresholders)
  {
    CallbackView(cb.monitor.View(), cb.healthyActions, cb.factor)
  }

  class SafetyDetector {
    const agent: SafetyDetectorAgent
    const callbacks: seq<LossTrendCallback>
    ghost var log: seq<Message>

    ghost const Repr: set<object>

    ghost predicate Valid()
      reads Repr
    {
      && this in Repr && agent in Repr && agent.Repr <= Repr && this !in agent.Repr
      && (forall i :: 0 <= i < |callbacks| ==>
            && CallbackObjects(callbacks[i]) <= Repr && this !in CallbackObjects(callbacks[i])
            && CallbackObjects(callbacks[i]) !! agent.Repr
            && callbacks[i] !in callbacks[i].monitor.Repr
            && callbacks[i].monitor in Repr && Objects(callbacks[i].monitor.thresholders) <= Repr)
      && (forall i, j :: 0 <= i < j < |callbacks| ==> CallbackObjects(callbacks[i]) !! CallbackObjects(callbacks[j]))
      && agent.Valid()
      && (forall i :: 0 <= i < |callbacks| ==> callbacks[i].monitor.Valid() && callbacks[i].monitor.failedRecoveries >= 0)
    }

    ghost function Views(): (vs: seq<CallbackView>)
      reads Repr
      requires Valid()
      ensures |vs| == |callbacks| && Counting(vs)
    {
      seq(|callbacks|, i requires 0 <= i < |callbacks| && Valid() reads Repr => ViewOf(callbacks[i]))
    }

    constructor (agent: SafetyDetectorAgent, callbacks: seq<LossTrendCallback>)
      requires agent.Valid() && agent in agent.Repr
      requires forall i :: 0 <= i < |callbacks| ==>
        && CallbackObjects(callbacks[i]) !! agent.Repr && callbacks[i] !in callbacks[i].monitor.Repr
        && callbacks[i].monitor.Valid() && callbacks[i].monitor.failedRecoveries >= 0
      requires forall i, j :: 0 <= i < j < |callbacks| ==> CallbackObjects(callbacks[i]) !! CallbackObjects(callbacks[j])
      ensures Valid() && this.agent == agent && this.callbacks == callbacks && log == []
    {
      this.agent, this.callbacks, log := agent, callbacks, [];
      Repr := {this} + agent.Repr + (set i, o | 0 <= i < |callbacks| && o in CallbackObjects(callbacks[i]) :: o);
    }

    /** One callback acts; nothing of the others or of the switchers changes. */
    method ActOne(i: nat, values: map<Target, real>) returns (sent: Option<map<Setting, Sent>>)
      requires Valid() && i < |callbacks|
      modifies Repr
      ensures Valid() && agent.View() == old(agent.View()) && agent.isInactive == old(agent.isInactive) && log == old(log)
      ensures Views() == old(Views())[i := Reacts(old(Views())[i], values).0]
      ensures sent == Reacts(old(Views())[i], values).1
    {
      hide Sensed, React;
      ghost var before := Views();
      SensedKeeps(callbacks[i].monitor.View(), values);
      sent := callbacks[i].Act(values);
      ghost var vs := Views();
      assert vs[i] == Reacts(before[i], values).0;
      assert forall j :: 0 <= j < |callbacks| && j != i ==> vs[j] == before[j];
    }

    /** Every callback acts on the statistics; answers is what they ask to be published. */
    method ActEach(values: map<Target, real>) returns (answers: seq<Message>)
      requires Valid()
      modifies Repr
      ensures Valid() && agent.View() == old(agent.View()) && agent.isInactive == old(agent.isInactive) && log == old(log)
      ensures forall i :: 0 <= i < |callbacks| ==> Views()[i] == Reacts(old(Views())[i], values).0
      ensures answers == Answers(old(Views()), values, |callbacks|)
    {
      hide Reacts, Valid, Answer, ViewOf;
      ghost var before := Views();
      answers := [];
      for i := 0 to |callbacks|
        invariant Valid() && agent.View() == old(agent.View()) && agent.isInactive == old(agent.isInactive) && log == old(log)
        invariant forall j :: 0 <= j < i ==> Views()[j] == Reacts(before[j], values).0
        invariant forall j :: i <= j < |callbacks| ==> Views()[j] == before[j]
        invariant answers == Answers(before, values, i)
      {
        var sent := ActOne(i, values);
        answers := answers + Answer(sent);
      }
    }

    /** Publishing changes nothing but the log. */
    method Publish(ghost messages: seq<Message>)
      requires Valid()
      modifies this`log
      ensures Valid() && Views() == old(Views()) && log == old(log) + messages
      ensures agent.View() == old(agent.View()) && agent.isInactive == old(agent.isInactive)
    {
      ghost var before := Views();
      log := log + messages;
      ghost var after := Views();
      assert forall i :: 0 <= i < |callbacks| ==> after[i] == before[i];
    }

    /** The switchers decide; nothing of the callbacks changes. */
    method DecideSwitch(values: map<Target, real>)
      requires Valid()
      modifies agent.Repr
      ensures Valid() && Views() == old(Views()) && log == old(log) && agent.isInactive == old(agent.isInactive)
      ensures agent.View() == S.Decide(old(agent.View()), old(agent.SensedTrends(values)))
    {
      hide S.Decide, Sensed;
      ghost var before := Views();
      agent.Decide(values);
      ghost var after := Views();
      assert forall i :: 0 <= i < |callbacks| ==> after[i] == before[i];
    }

    /** One decision on new statistics: first the switchers, then the callbacks. */
    method Decide(values: map<Target, real>)
      requires Valid()
      modifies Repr
      ensures Valid() && agent.isInactive == old(agent.isInactive)
      ensures agent.View() == S.Decide(old(agent.View()), old(agent.SensedTrends(values)))
      ensures forall i :: 0 <= i < |callbacks| ==> Views()[i] == Reacts(old(Views())[i], values).0
      ensures log == old(log) + Switches(old(agent.published), agent.published) + Answers(old(Views()), values, |callbacks|)
    {
      assert agent.Repr <= Repr && this in Repr;
      hide Reacts, Answer, S.Decide, Sensed, Valid;
      ghost var algos := agent.published;
      DecideSwitch(values);
      Publish(Switches(algos, agent.published));
      var answers := ActEach(values);
      Publish(answers);
    }

    /**
     One turn of the agent's loop: unless it is inactive, was interrupted while it waited or found
     no statistics, it decides on the latest ones.
     */
    method Turn(interrupted: bool, stats: seq<map<Target, real>>)
      requires Valid()
      modifies Repr
      ensures Valid() && agent.isInactive == old(agent.isInactive)
      ensures var decides := !old(agent.isInactive) && !interrupted && stats != [];
        && agent.View() == (if decides then S.Decide(old(agent.View()), old(agent.SensedTrends(stats[|stats| - 1]))) else old(agent.View()))
        && (forall i :: 0 <= i < |callbacks| ==>
              Views()[i] == if decides then Reacts(old(Views())[i], stats[|stats| - 1]).0 else old(Views())[i])
        && log == if decides
             then old(log) + Switches(old(agent.published), agent.published) + Answers(old(Views()), stats[|stats| - 1], |callbacks|)
             else old(log)
    {
      hide Reacts, Answer, Answers, S.Decide, Sensed;
      if !agent.isInactive && !interrupted && stats != [] {
        Decide(stats[|stats| - 1]);
      }
    }

    /** Activating the detector publishes the unsafe choice if it has switchers, and acts on nothing else. */
    method ChangeStatus(inactive: bool)
      requires Valid()
      modifies agent, this`log
      ensures Valid() && Views() == old(Views()) && agent.Views() == old(agent.Views())
      ensures agent.isInactive == (inactive || (old(agent.isInactive) && agent.switchers == []))
      ensures log == old(log) + if !inactive && agent.switchers != [] then [Switch(S.UNSAFE)] else []
    {
      ghost var before, algos := Views(), agent.published;
      agent.ChangeStatus(inactive);
      ghost var after := Views();
      assert forall i :: 0 <= i < |callbacks| ==> after[i] == before[i];
      hide Valid;
      Publish(Switches(algos, agent.published));
    }
  }
}
