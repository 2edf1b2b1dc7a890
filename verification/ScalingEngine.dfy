/** The metric-driven scaling engine, the threshold evaluator that repeats its loop without the early
    exit, and the cooldowns between actions. */
module ScalingEngine {
  import opened Arith

  datatype Metric = Metric(kind: string, threshold: real)

  datatype Policy = Policy(increment: int, cooldown: int)

  datatype ServiceConfig = ServiceConfig(
    minInstances: int, maxInstances: int, metrics: seq<Metric>, scaleOut: Policy, scaleIn: Policy)

  datatype Action = ActionNone | ActionScaleOut | ActionScaleIn

  datatype Decision = Decision(service: string, action: Action, current: int, target: int)

  // ---- Metrics against thresholds ----

  predicate Exceeds(m: Metric, readings: map<string, real>) {
    m.kind in readings && readings[m.kind] > m.threshold
  }

  /** The collected value is above 80% of the threshold. */
  predicate Busy(m: Metric, readings: map<string, real>) {
    m.kind in readings && readings[m.kind] > m.threshold * 0.8
  }

  ghost predicate Overloaded(metrics: seq<Metric>, readings: map<string, real>) {
    exists m :: m in metrics && Exceeds(m, readings)
  }

  /** What the engine takes for idle: no collected metric is above 80% of its threshold. */
  ghost predicate Idle(metrics: seq<Metric>, readings: map<string, real>) {
    forall m :: m in metrics ==> !Exceeds(m, readings) && !Busy(m, readings)
  }

  /** The evaluator reads a metric that was not collected as zero. */
  function ValueOf(m: Metric, readings: map<string, real>): real {
    if m.kind in readings then readings[m.kind] else 0.0
  }

  ghost predicate IdleReadingZeros(metrics: seq<Metric>, readings: map<string, real>) {
    forall m :: m in metrics ==> !Exceeds(m, readings) && ValueOf(m, readings) <= m.threshold * 0.8
  }

  /** The engine's loop, which leaves at the first exceeded threshold. */
  method EngineFlags(metrics: seq<Metric>, readings: map<string, real>)
    returns (scaleOut: bool, scaleIn: bool, trigger: nat)
    ensures scaleOut <==> Overloaded(metrics, readings)
    ensures scaleIn <==> Idle(metrics, readings)
    ensures scaleOut ==> trigger < |metrics| && Exceeds(metrics[trigger], readings)
                         && forall k :: 0 <= k < trigger ==> !Exceeds(metrics[k], readings)
  {
    scaleOut, scaleIn, trigger := false, true, 0;
    for i := 0 to |metrics|
      invariant !scaleOut && forall k :: 0 <= k < i ==> !Exceeds(metrics[k], readings)
      invariant scaleIn <==> forall k :: 0 <= k < i ==> !Busy(metrics[k], readings)
    {
      var m := metrics[i];
      if m.kind !in readings {
        continue;
      }
      if readings[m.kind] > m.threshold {
        assert m in metrics && Exceeds(m, readings);
        scaleOut, scaleIn, trigger := true, false, i;
        break;
      }
      if readings[m.kind] > m.threshold * 0.8 {
        scaleIn := false;
      }
    }
  }

  /** The evaluator's loop, which looks at every metric and remembers the last exceeded one. */
  method EvaluatorFlags(metrics: seq<Metric>, readings: map<string, real>)
    returns (scaleOut: bool, scaleIn: bool, trigger: nat)
    ensures scaleOut <==> Overloaded(metrics, readings)
    ensures scaleIn <==> IdleReadingZeros(metrics, readings)
    ensures scaleOut ==> trigger < |metrics| && Exceeds(metrics[trigger], readings)
                         && forall k :: trigger < k < |metrics| ==> !Exceeds(metrics[k], readings)
  {
    scaleOut, scaleIn, trigger := false, true, 0;
    for i := 0 to |metrics|
      invariant scaleOut ==> trigger < i && Exceeds(metrics[trigger], readings)
      invariant scaleOut ==> forall k :: trigger < k < i ==> !Exceeds(metrics[k], readings)
      invariant !scaleOut ==> forall k :: 0 <= k < i ==> !Exceeds(metrics[k], readings)
      invariant scaleIn <==> forall k :: 0 <= k < i ==>
        !Exceeds(metrics[k], readings) && ValueOf(metrics[k], readings) <= metrics[k].threshold * 0.8
    {
      var m := metrics[i];
      if Exceeds(m, readings) {
        scaleOut, scaleIn, trigger := true, false, i;
      } else if ValueOf(m, readings) > m.threshold * 0.8 {
        scaleIn := false;
      }
    }
  }

  /** The two loops disagree exactly when a metric with a negative threshold was not collected while
      nothing that was collected is busy: the engine then scales in and the evaluator does not. */
  lemma FlagsAgree(metrics: seq<Metric>, readings: map<string, real>)
    ensures (Idle(metrics, readings) <==> IdleReadingZeros(metrics, readings))
            <==> Overloaded(metrics, readings)
                 || (exists m :: m in metrics && Busy(m, readings))
                 || (forall m :: m in metrics && m.threshold < 0.0 ==> m.kind in readings)
  {
  }

  // ---- Decisions ----

  function Decide(service: string, c: ServiceConfig, out: bool, idle: bool, current: int, healthy: int): Decision {
    if out && current < c.maxInstances then
      Decision(service, ActionScaleOut, current, Min(current + c.scaleOut.increment, c.maxInstances))
    else if idle && current > c.minInstances && healthy > c.minInstances
            && current as real > c.minInstances as real * 1.2 then
      Decision(service, ActionScaleIn, current, Max(current - c.scaleIn.increment, c.minInstances))
    else Decision(service, ActionNone, current, current)
  }

  /** Counts under constant overload, every decision carried out. */
  function Overload(c: ServiceConfig, current: int, rounds: nat): int
    decreases rounds
  {
    if rounds == 0 then current else Overload(c, Decide("", c, true, false, current, current).target, rounds - 1)
  }

  /** Counts without any load, all instances healthy, every decision carried out. */
  function Quiet(c: ServiceConfig, current: int, rounds: nat): int
    decreases rounds
  {
    if rounds == 0 then current else Quiet(c, Decide("", c, false, true, current, current).target, rounds - 1)
  }

  /** Overload drives a service to exactly its maximum, at the latest after as many rounds as
      instances are missing. */
  lemma {:induction false} OverloadReachesMax(c: ServiceConfig, current: int, rounds: nat)
    requires current <= c.maxInstances && c.scaleOut.increment >= 1 && rounds >= c.maxInstances - current
    ensures Overload(c, current, rounds) == c.maxInstances
    decreases rounds
  {
    if rounds > 0 {
      OverloadReachesMax(c, Decide("", c, true, false, current, current).target, rounds - 1);
    }
  }

  lemma {:induction false} QuietStays(c: ServiceConfig, current: int, rounds: nat)
    requires current as real <= c.minInstances as real * 1.2
    ensures Quiet(c, current, rounds) == current
    decreases rounds
  {
    if rounds > 0 {
      QuietStays(c, current, rounds - 1);
    }
  }

  /** Without load a service settles between its minimum and the 20% buffer above it, and then no
      further decision is made. */
  lemma {:induction false} QuietSettles(c: ServiceConfig, current: int, rounds: nat)
    requires 0 <= c.minInstances <= current && c.scaleIn.increment >= 1 && rounds >= current - c.minInstances
    ensures var settled := Quiet(c, current, rounds);
            && c.minInstances <= settled && settled as real <= c.minInstances as real * 1.2
            && Decide("", c, false, true, settled, settled).action == ActionNone
    decreases rounds
  {
    if current as real <= c.minInstances as real * 1.2 {
      QuietStays(c, current, rounds);
    } else if rounds > 0 {
      QuietSettles(c, Decide("", c, false, true, current, current).target, rounds - 1);
    }
  }

  // ---- Cooldowns over a run ----

  datatype Cooldown = Cooldown(lastScaleTime: int, lastAction: Action, until: int)

  /** What an evaluation sees of the outside: the clock, the registry's counts and the collected
      metrics, none if collecting failed. */
  datatype View = View(now: int, current: int, healthy: int, readings: Readings)

  datatype Readings = Collected(values: map<string, real>) | CollectFailed

  datatype Outcome = Decided(decision: Decision) | UnknownService | MetricsFailed

  datatype Event = Evaluated(service: string, view: View) | Applied(decision: Decision, now: int)

  type Services = map<string, ServiceConfig>

  predicate InCooldown(cooldowns: map<string, Cooldown>, service: string, now: int) {
    service in cooldowns && now < cooldowns[service].until
  }

  /** The decision on the metrics alone. */
  ghost function OnMetrics(service: string, c: ServiceConfig, v: View): Outcome {
    match v.readings
    case CollectFailed => MetricsFailed
    case Collected(values) =>
      Decided(Decide(service, c, Overloaded(c.metrics, values), Idle(c.metrics, values), v.current, v.healthy))
  }

  ghost function Evaluation(services: Services, cooldowns: map<string, Cooldown>, service: string, v: View): Outcome {
    if service !in services then UnknownService
    else if InCooldown(cooldowns, service, v.now) then Decided(Decision(service, ActionNone, v.current, v.current))
    else OnMetrics(service, services[service], v)
  }

  function CooldownOf(c: ServiceConfig, a: Action): int {
    if a == ActionScaleIn then c.scaleIn.cooldown else c.scaleOut.cooldown
  }

  /** Applying this decision starts a cooldown of the service. */
  predicate Starts(services: Services, e: Event, service: string) {
    e.Applied? && e.decision.service == service && e.decision.action != ActionNone && service in services
  }

  function Recorded(services: Services, cooldowns: map<string, Cooldown>, d: Decision, now: int)
    : map<string, Cooldown>
  {
    if d.action == ActionNone || d.service !in services then cooldowns
    else cooldowns[d.service := Cooldown(now, d.action, now + CooldownOf(services[d.service], d.action))]
  }

  function After(services: Services, run: seq<Event>): map<string, Cooldown> {
    if run == [] then map[]
    else
      var before := After(services, run[..|run| - 1]);
      match run[|run| - 1]
      case Evaluated(_, _) => before
      case Applied(d, now) => Recorded(services, before, d, now)
  }

  /** What the evaluation at position j of a run returns. */
  ghost function Outcomes(services: Services, run: seq<Event>, j: nat): Outcome
    requires j < |run| && run[j].Evaluated?
  {
    Evaluation(services, After(services, run[..j]), run[j].service, run[j].view)
  }

  /** The end of the cooldown started by the event at position i. */
  function EndOf(services: Services, run: seq<Event>, i: nat): int
    requires i < |run| && run[i].Applied? && run[i].decision.service in services
  {
    var c := services[run[i].decision.service];
    run[i].now + if run[i].decision.action == ActionScaleIn then c.scaleIn.cooldown else c.scaleOut.cooldown
  }

  lemma {:induction false} LastStartCounts(services: Services, run: seq<Event>, service: string, i: nat)
    requires i < |run| && Starts(services, run[i], service)
    requires forall k :: i < k < |run| ==> !Starts(services, run[k], service)
    ensures service in After(services, run) && After(services, run)[service].until == EndOf(services, run, i)
    decreases |run|
  {
    if i < |run| - 1 {
      LastStartCounts(services, run[..|run| - 1], service, i);
    }
  }

  lemma {:induction false} NoStartNoCooldown(services: Services, run: seq<Event>, service: string)
    requires forall k :: 0 <= k < |run| ==> !Starts(services, run[k], service)
    ensures service !in After(services, run)
    decreases |run|
  {
    if run != [] {
      NoStartNoCooldown(services, run[..|run| - 1], service);
    }
  }

  /** An evaluation is held back exactly until the cooldown of the last applied action ends; after
      that it returns what the metrics say. */
  lemma LastActionHolds(services: Services, run: seq<Event>, i: nat, j: nat)
    requires i < j < |run| && run[j].Evaluated? && Starts(services, run[i], run[j].service)
    requires forall k :: i < k < j ==> !Starts(services, run[k], run[j].service)
    ensures var v := run[j].view;
            Outcomes(services, run, j) ==
              if v.now < EndOf(services, run, i)
              then Decided(Decision(run[j].service, ActionNone, v.current, v.current))
              else OnMetrics(run[j].service, services[run[j].service], v)
  {
    LastStartCounts(services, run[..j], run[j].service, i);
  }

  /** Before the first applied action nothing is held back. */
  lemma UnscaledIsFree(services: Services, run: seq<Event>, j: nat)
    requires j < |run| && run[j].Evaluated? && run[j].service in services
    requires forall k :: 0 <= k < j ==> !Starts(services, run[k], run[j].service)
    ensures Outcomes(services, run, j) == OnMetrics(run[j].service, services[run[j].service], run[j].view)
  {
    NoStartNoCooldown(services, run[..j], run[j].service);
  }

  function TimeOf(e: Event): int {
    match e
    case Evaluated(_, v) => v.now
    case Applied(_, now) => now
  }

  ghost predicate ClockAdvances(run: seq<Event>) {
    forall i, j :: 0 <= i < j < |run| ==> TimeOf(run[i]) <= TimeOf(run[j])
  }

  lemma LastStart(services: Services, run: seq<Event>, service: string, i: nat, j: nat)
    returns (last: nat)
    requires i < j <= |run| && Starts(services, run[i], service)
    ensures i <= last < j && Starts(services, run[last], service)
    ensures forall k :: last < k < j ==> !Starts(services, run[k], service)
  {
    last := j - 1;
    while !Starts(services, run[last], service)
      invariant i <= last < j
      invariant forall k :: last < k < j ==> !Starts(services, run[k], service)
      decreases last
    {
      last := last - 1;
    }
  }

  /** With a clock that never goes back, an action the engine asks for comes at least the shorter
      cooldown after every action applied to the service before, whoever decided on it. */
  lemma ActionsAreSpaced(services: Services, run: seq<Event>, i: nat, j: nat)
    requires ClockAdvances(run) && i < j < |run| && run[j].Evaluated? && Starts(services, run[i], run[j].service)
    requires var o := Outcomes(services, run, j); o.Decided? && o.decision.action != ActionNone
    ensures var c := services[run[j].service];
            TimeOf(run[j]) - TimeOf(run[i]) >= Min(c.scaleOut.cooldown, c.scaleIn.cooldown)
  {
    var last := LastStart(services, run, run[j].service, i, j);
    LastActionHolds(services, run, last, j);
    assert TimeOf(run[i]) <= TimeOf(run[last]);
  }

  /** Every decision keeps to the bounds, moves in the direction of its action, and is taken for the
      reason it should be: an exceeded threshold, or no busy metric and enough healthy instances. */
  lemma DecisionsAreSound(services: Services, run: seq<Event>, j: nat, values: map<string, real>)
    requires j < |run| && run[j].Evaluated? && run[j].service in services
    requires run[j].view.readings == Collected(values)
    requires var c := services[run[j].service]; c.scaleOut.increment >= 1 && c.scaleIn.increment >= 1
    ensures var c, v, o := services[run[j].service], run[j].view, Outcomes(services, run, j);
            && o.Decided? && o.decision.service == run[j].service && o.decision.current == v.current
            && (match o.decision.action
                case ActionScaleOut => Overloaded(c.metrics, values) && v.current < o.decision.target <= c.maxInstances
                case ActionScaleIn => Idle(c.metrics, values) && v.healthy > c.minInstances
                                      && c.minInstances <= o.decision.target < v.current
                case ActionNone => o.decision.target == v.current)
  {
  }

  /** Some collected value is above this many tenths of its threshold. */
  ghost predicate Above(metrics: seq<Metric>, values: map<string, real>, tenths: nat) {
    exists m :: m in metrics && m.kind in values && 10.0 * values[m.kind] > tenths as real * m.threshold
  }

  /** The decision on the metrics, in numbers. The engine scales out exactly if some collected value exceeds
      its threshold and the maximum is not reached, and in exactly if none does or exceeds eight tenths of its
      threshold, and there are more instances and more healthy ones than the minimum, and more than six fifths
      of it. It changes the count by exactly the increment, or by less to end at the bound. */
  lemma DecisionMeans(service: string, c: ServiceConfig, v: View, values: map<string, real>)
    requires v.readings == Collected(values)
    ensures var o := OnMetrics(service, c, v);
            && o.Decided?
            && var d := o.decision;
            && d.service == service && d.current == v.current
            && (d.action == ActionScaleOut <==> Above(c.metrics, values, 10) && v.current < c.maxInstances)
            && (d.action == ActionScaleIn <==>
                  && !Above(c.metrics, values, 10) && !Above(c.metrics, values, 8)
                  && v.current > c.minInstances && v.healthy > c.minInstances && 5 * v.current > 6 * c.minInstances)
            && (d.action == ActionScaleOut ==>
                  d.target == if v.current + c.scaleOut.increment <= c.maxInstances
                              then v.current + c.scaleOut.increment else c.maxInstances)
            && (d.action == ActionScaleIn ==>
                  d.target == if v.current - c.scaleIn.increment >= c.minInstances
                              then v.current - c.scaleIn.increment else c.minInstances)
            && (d.action == ActionNone ==> d.target == v.current)
  {
    forall m: Metric | m.kind in values
      ensures Exceeds(m, values) <==> 10.0 * values[m.kind] > 10 as real * m.threshold
      ensures Busy(m, values) <==> 10.0 * values[m.kind] > 8 as real * m.threshold
    {
    }
    assert Overloaded(c.metrics, values) <==> Above(c.metrics, values, 10);
    assert Idle(c.metrics, values) <==> !Above(c.metrics, values, 10) && !Above(c.metrics, values, 8);
  }

  // ---- The engine ----

  class ScalingEngine {
    const services: Services
    var cooldowns: map<string, Cooldown>
    /** Every evaluation and every applied decision so far. */
    ghost var run: seq<Event>

    ghost predicate Valid()
      reads this
    {
      cooldowns == After(services, run)
    }

    constructor (services: Services)
      ensures Valid() && this.services == services && run == []
    {
      this.services := services;
      cooldowns, run := map[], [];
    }

    method GetCooldownStatus(service: string, now: int) returns (held: bool, until: int)
      ensures held <==> InCooldown(cooldowns, service, now)
      ensures held ==> until == cooldowns[service].until
    {
      if service in cooldowns {
        if now < cooldowns[service].until {
          return true, cooldowns[service].until;
        }
      }
      return false, 0;
    }

    method EvaluateService(service: string, view: View) returns (outcome: Outcome)
      requires Valid()
      modifies this`run
      ensures Valid() && run == old(run) + [Evaluated(service, view)]
      ensures outcome == Outcomes(services, run, |run| - 1)
    {
      run := run + [Evaluated(service, view)];
      outcome := Evaluate(service, view);
    }

    method Evaluate(service: string, view: View) returns (outcome: Outcome)
      ensures outcome == Evaluation(services, cooldowns, service, view)
    {
      if service !in services {
        return UnknownService;
      }
      var held, _ := GetCooldownStatus(service, view.now);
      if held {
        return Decided(Decision(service, ActionNone, view.current, view.current));
      }
      if view.readings.CollectFailed? {
        return MetricsFailed;
      }
      var c := services[service];
      var scaleOut, scaleIn, _ := EngineFlags(c.metrics, view.readings.values);
      var action, target := ActionNone, view.current;
      if scaleOut && view.current < c.maxInstances {
        action, target := ActionScaleOut, Min(view.current + c.scaleOut.increment, c.maxInstances);
      } else if scaleIn && view.current > c.minInstances && view.healthy > c.minInstances {
        var buffer := c.minInstances as real * 1.2;
        if view.current as real > buffer {
          action, target := ActionScaleIn, Max(view.current - c.scaleIn.increment, c.minInstances);
        }
      }
      return Decided(Decision(service, action, view.current, target));
    }

    method ApplyDecision(d: Decision, now: int) returns (ok: bool)
      requires Valid()
      modifies this
      ensures Valid() && run == old(run) + [Applied(d, now)]
      ensures ok <==> d.action == ActionNone || d.service in services
    {
      run := run + [Applied(d, now)];
      if d.action == ActionNone {
        return true;
      }
      if d.service !in services {
        return false;
      }
      var c := services[d.service];
      var cooldown := c.scaleOut.cooldown;
      if d.action == ActionScaleIn {
        cooldown := c.scaleIn.cooldown;
      }
      cooldowns := cooldowns[d.service := Cooldown(now, d.action, now + cooldown)];
      return true;
    }
  }
}
