/** Runs of the instance controller, on its state as a value: which runs keep every port with its owner,
    what the registry shows, and when a stop channel is closed twice. */
module ControllerRuns {
  import opened Collections
  import opened ServiceController
  import R = Registry

  /** A step of a run. A start that fails changes nothing and is left out; `Forget` is what Cleanup does
      to one dead instance; `Tick` is a monitor finding its process gone, with the port it remembers. */
  datatype Op =
    | Start(id: string, service: string, port: int)
    | Stop(id: string, env: StopEnv)
    | Forget(id: string, now: int)
    | Tick(id: string, port: int, now: int)
    | SetStatus(id: string, status: R.Status, now: int)

  const IDLE: Ctl := Ctl(map[], {}, map[])

  function Apply(config: map<string, Config>, closed: bool, c: Ctl, op: Op): Ctl {
    match op
    case Start(id, service, port) => if closed || id in c.reg || port in c.taken then c else Added(c, id, service, port)
    case Stop(id, env) => AfterStop(config, closed, c, id, env)
    case Forget(id, now) => Forgotten(closed, c, id, R.Failed, now)
    case Tick(id, port, now) => Ticked(closed, c, id, port, now)
    case SetStatus(id, status, now) => c.(reg := Marked(closed, c.reg, id, status, now))
  }

  function After(config: map<string, Config>, closed: bool, run: seq<Op>): Ctl {
    if run == [] then IDLE
    else Apply(config, closed, After(config, closed, run[..|run| - 1]), run[|run| - 1])
  }

  // ---- Port ownership ----

  /** No monitor in the run was stale and found its port taken by somebody else. */
  predicate TicksHarmless(config: map<string, Config>, closed: bool, run: seq<Op>) {
    run == [] ||
    (TicksHarmless(config, closed, run[..|run| - 1]) &&
     var last := run[|run| - 1];
     last.Tick? ==> Harmless(After(config, closed, run[..|run| - 1]), last.id, last.port))
  }

  /** Over every run of starts, stops, cleanups and harmless ticks, exactly the ports of managed instances
      are taken, no two share one, and every managed instance is registered. */
  lemma {:induction false} RunKeepsOwnership(config: map<string, Config>, closed: bool, run: seq<Op>)
    requires TicksHarmless(config, closed, run)
    ensures Fits(After(config, closed, run))
  {
    if run != [] {
      var before := run[..|run| - 1];
      var c := After(config, closed, before);
      RunKeepsOwnership(config, closed, before);
      match run[|run| - 1]
      case Start(id, service, port) =>
        if !closed && id !in c.reg && port !in c.taken {
          StartingFits(c, id, service, port);
        }
      case Stop(id, env) => StoppingFits(config, closed, c, id, env);
      case Forget(id, now) => ForgettingFits(closed, c, id, R.Failed, now);
      case Tick(id, port, now) => TickingFits(closed, c, id, port, now);
      case SetStatus(id, status, now) => MarkingFits(closed, c, id, status, now);
    }
  }

  lemma Extends(config: map<string, Config>, closed: bool, run: seq<Op>, op: Op)
    ensures After(config, closed, run + [op]) == Apply(config, closed, After(config, closed, run), op)
  {
    assert (run + [op])[..|run|] == run;
  }

  function Cleaned(c: Ctl, id: string, now: int): Ctl {
    Forgotten(false, c, id, R.Failed, now)
  }

  /** An instance that is started and cleaned up leaves its port free again. */
  lemma StartedAndCleaned(c: Ctl, id: string, service: string, port: int, now: int)
    requires id !in c.reg && id !in c.managed && port !in c.taken
    ensures var c' := Cleaned(Added(c, id, service, port), id, now);
            c'.managed == c.managed && c'.taken == c.taken && c'.reg.Keys == c.reg.Keys + {id}
  {
  }

  /** A late tick of one instance's monitor takes the port away from another. */
  lemma LateTick(c: Ctl, id: string, owner: string, service: string, port: int, now: int)
    requires id in c.reg && id !in c.managed && owner !in c.reg && port !in c.taken
    ensures var late := Ticked(false, Added(c, owner, service, port), id, port, now);
            && late.managed == c.managed[owner := Managed(service, port, false)]
            && late.taken == c.taken && late.reg.Keys == c.reg.Keys + {owner}
  {
  }

  /** The run that breaks ownership, after any run so far, for any three new instances and any free port:
      a dies and is cleaned up, b is started on the same port, a's monitor ticks late and frees the port
      under b, and d gets it too. */
  lemma StaleMonitorSharesPort(config: map<string, Config>, before: seq<Op>, service: string,
                               a: string, b: string, d: string, port: int, now: int)
    requires var c := After(config, false, before); {a, b, d} !! c.reg.Keys && port !in c.taken
    requires a != b && a != d && b != d
    ensures var run := before + [Start(a, service, port)] + [Forget(a, now)] + [Start(b, service, port)];
            var late := After(config, false, run + [Tick(a, port, now)]);
            var shared := After(config, false, run + [Tick(a, port, now)] + [Start(d, service, port)]);
            && b in late.managed && late.managed[b].port == port && port !in late.taken && !Fits(late)
            && b in shared.managed && d in shared.managed && shared.managed[b].port == shared.managed[d].port == port
  {
    var r1 := before + [Start(a, service, port)];
    var r2 := r1 + [Forget(a, now)];
    var r3 := r2 + [Start(b, service, port)];
    var r4 := r3 + [Tick(a, port, now)];
    var c, c2 := After(config, false, before), After(config, false, r2);
    ManagedIsKnown(config, false, before, a);
    Extends(config, false, before, Start(a, service, port));
    Extends(config, false, r1, Forget(a, now));
    StartedAndCleaned(c, a, service, port, now);
    Extends(config, false, r2, Start(b, service, port));
    Extends(config, false, r3, Tick(a, port, now));
    LateTick(c2, a, b, service, port, now);
    Extends(config, false, r4, Start(d, service, port));
    var late := After(config, false, r4);
    assert late.managed[b].port in Ports(late.managed);
  }

  // ---- Statuses in the registry ----

  /** A status and the time it was set. */
  datatype Mark = Mark(status: R.Status, at: int)

  /** The mark on an instance after one more operation. */
  function NextMark(config: map<string, Config>, c: Ctl, was: Option<Mark>, op: Op, id: string): Option<Mark> {
    match op
    case Start(x, _, port) =>
      if x == id && was.None? && port !in c.taken then Some(Mark(R.Starting, 0)) else was
    case Stop(x, env) =>
      if x != id || id !in c.managed || was.None? then was
      else if c.managed[id].service in config && !c.managed[id].stopClosed && (env.stops || env.kills)
      then Some(Mark(R.Stopped, env.now))
      else Some(Mark(R.Stopping, env.now))
    case Forget(x, now) => if x == id && id in c.managed && was.Some? then Some(Mark(R.Failed, now)) else was
    case Tick(x, _, now) => if x == id && was.Some? then Some(Mark(R.Failed, now)) else was
    case SetStatus(x, status, now) => if x == id && was.Some? then Some(Mark(status, now)) else was
  }

  /** The last mark an operation of the run put on an instance: none before it is started. */
  function LastMark(config: map<string, Config>, run: seq<Op>, id: string): Option<Mark> {
    if run == [] then None
    else
      var before := run[..|run| - 1];
      NextMark(config, After(config, false, before), LastMark(config, before, id), run[|run| - 1], id)
  }

  ghost predicate Shows(reg: map<string, R.Record>, id: string, mark: Option<Mark>) {
    if mark.Some? then id in reg && reg[id].status == mark.value.status && reg[id].checked == mark.value.at
    else id !in reg
  }

  lemma StopShows(config: map<string, Config>, c: Ctl, was: Option<Mark>, x: string, env: StopEnv, id: string)
    requires Shows(c.reg, id, was)
    ensures Shows(AfterStop(config, false, c, x, env).reg, id, NextMark(config, c, was, Stop(x, env), id))
  {
  }

  lemma OperationShows(config: map<string, Config>, c: Ctl, was: Option<Mark>, op: Op, id: string)
    requires Shows(c.reg, id, was)
    ensures Shows(Apply(config, false, c, op).reg, id, NextMark(config, c, was, op, id))
  {
    match op
    case Stop(x, env) => StopShows(config, c, was, x, env, id);
    case _ =>
  }

  /** Over every run with an open registry, it shows exactly the last mark: starting when an instance is
      started, stopping while it is being stopped, stopped when that succeeds, failed when its process was
      found dead. */
  lemma {:induction false} StatusIsLastMark(config: map<string, Config>, run: seq<Op>, id: string)
    ensures Shows(After(config, false, run).reg, id, LastMark(config, run, id))
  {
    if run != [] {
      var before := run[..|run| - 1];
      StatusIsLastMark(config, before, id);
      OperationShows(config, After(config, false, before), LastMark(config, before, id), run[|run| - 1], id);
    }
  }

  // ---- Closing a stop channel twice ----

  /** Stopping an instance again right after a stop closes its channel twice exactly if the first stop
      could not kill it, or did so itself. */
  lemma StopTwice(config: map<string, Config>, closed: bool, c: Ctl, id: string, first: StopEnv, second: StopEnv)
    ensures StopResult(config, AfterStop(config, closed, c, id, first), id, second) == DoubleClose
            <==> StopResult(config, c, id, first) in {NotKilled, DoubleClose}
  {
  }

  /** Some stop of the instance in this run returned that it could not be killed. */
  predicate KillFailed(config: map<string, Config>, closed: bool, run: seq<Op>, id: string) {
    run != [] &&
    var before, last := run[..|run| - 1], run[|run| - 1];
    KillFailed(config, closed, before, id)
    || (last.Stop? && last.id == id && StopResult(config, After(config, closed, before), id, last.env) == NotKilled)
  }

  lemma {:induction false} ManagedIsKnown(config: map<string, Config>, closed: bool, run: seq<Op>, id: string)
    ensures var c := After(config, closed, run); id in c.managed || KillFailed(config, closed, run, id) ==> id in c.reg
  {
    if run != [] {
      ManagedIsKnown(config, closed, run[..|run| - 1], id);
    }
  }

  /** The stop channel of a managed instance is closed exactly if an earlier stop of it failed to kill. */
  lemma {:induction false} ClosedIffKillFailed(config: map<string, Config>, closed: bool, run: seq<Op>, id: string)
    requires id in After(config, closed, run).managed
    ensures After(config, closed, run).managed[id].stopClosed <==> KillFailed(config, closed, run, id)
  {
    var before := run[..|run| - 1];
    ManagedIsKnown(config, closed, before, id);
    if id in After(config, closed, before).managed {
      ClosedIffKillFailed(config, closed, before, id);
    }
  }

  /** So a stop closes the channel twice exactly for a managed, configured instance of which an earlier
      stop failed to kill. */
  lemma StopClosesTwice(config: map<string, Config>, closed: bool, run: seq<Op>, id: string, env: StopEnv)
    ensures var c := After(config, closed, run);
            StopResult(config, c, id, env) == DoubleClose <==>
              id in c.managed && c.managed[id].service in config && KillFailed(config, closed, run, id)
  {
    if id in After(config, closed, run).managed {
      ClosedIffKillFailed(config, closed, run, id);
    }
  }

  /** And closing the controller does so exactly if it still manages such an instance. */
  lemma CloseClosesTwice(config: map<string, Config>, closed: bool, run: seq<Op>)
    ensures var c := After(config, closed, run);
            CloseResult(c) == DoubleClose <==> exists id :: id in c.managed && KillFailed(config, closed, run, id)
  {
    forall id | id in After(config, closed, run).managed
      ensures After(config, closed, run).managed[id].stopClosed <==> KillFailed(config, closed, run, id)
    {
      ClosedIffKillFailed(config, closed, run, id);
    }
  }

  /** The input: after any run, a new instance that neither stops nor can be killed. */
  lemma FailedKillThenStop(config: map<string, Config>, before: seq<Op>, id: string, service: string, port: int,
                           env: StopEnv)
    requires var c := After(config, false, before); id !in c.reg && port !in c.taken
    requires service in config && !env.stops && !env.kills
    ensures var started := before + [Start(id, service, port)];
            var c := After(config, false, started + [Stop(id, env)]);
            && StopResult(config, After(config, false, started), id, env) == NotKilled
            && StopResult(config, c, id, env) == DoubleClose && CloseResult(c) == DoubleClose
  {
    var started := before + [Start(id, service, port)];
    Extends(config, false, before, Start(id, service, port));
    Extends(config, false, started, Stop(id, env));
    StopTwice(config, false, After(config, false, started), id, env, env);
    var c := After(config, false, started + [Stop(id, env)]);
    assert id in c.managed && c.managed[id].stopClosed;
  }
}
