/** The instance controller: ports, processes and the registry kept in step.

    Process start, stop and kill, the ports the system has free, instance identifiers and clock
    readings are parameters, so every contract holds whatever they turn out to be. */
module ServiceController {
  import opened Collections
  import opened PortAllocator
  import R = Registry

  datatype Config = Config(name: string)

  /** A managed instance. `stopClosed`: its stop channel has been closed. */
  datatype Managed = Managed(service: string, port: int, stopClosed: bool)

  datatype StartEnv = StartEnv(free: set<int>, ids: int -> string, starts: bool)

  datatype StopEnv = StopEnv(stops: bool, kills: bool, now: int)

  datatype Result =
    | Started(id: string) | NoPort | NotRegistered | NotStarted
    | Done | NotManaged | NotConfigured | DoubleClose | NotKilled

  // ---- Port ownership ----

  ghost function Ports(managed: map<string, Managed>): set<int> {
    set id | id in managed :: managed[id].port
  }

  /** Exactly the ports of managed instances are taken, and no two instances share one. */
  ghost predicate Owned(managed: map<string, Managed>, taken: set<int>) {
    && taken == Ports(managed)
    && forall a, b :: a in managed && b in managed && a != b ==> managed[a].port != managed[b].port
  }

  lemma AddOwned(managed: map<string, Managed>, taken: set<int>, id: string, m: Managed)
    requires Owned(managed, taken) && id !in managed && m.port !in taken
    ensures Owned(managed[id := m], taken + {m.port})
  {
    var managed' := managed[id := m];
    assert forall a :: a in managed ==> managed[a].port in Ports(managed);
    forall p
      ensures p in Ports(managed') <==> p in taken + {m.port}
    {
      if p in taken {
        var a :| a in managed && managed[a].port == p;
        assert managed'[a].port == p;
      }
      if p == m.port {
        assert managed'[id].port == p;
      }
    }
  }

  /** Forgetting an instance and releasing a port, as monitorInstance does for an instance whose
      process has died. For a managed instance this keeps ownership exactly when the port is its own;
      for one that is no longer managed, exactly when nobody owns the port. The stale monitor of a
      cleaned-up instance therefore breaks ownership once its port has been taken again. */
  lemma ReleaseKeepsOwned(managed: map<string, Managed>, taken: set<int>, id: string, port: int)
    requires Owned(managed, taken)
    ensures Owned(managed - {id}, taken - {port}) <==>
              if id in managed then managed[id].port == port else port !in taken
  {
    var managed' := managed - {id};
    assert forall a :: a in managed' ==> managed'[a].port in Ports(managed') && managed[a].port in Ports(managed);
    if id in managed {
      assert managed[id].port in Ports(managed);
      if managed[id].port == port {
        forall p
          ensures p in Ports(managed') <==> p in taken - {port}
        {
          if p in taken - {port} {
            var a :| a in managed && managed[a].port == p;
            assert managed'[a].port == p;
          }
        }
      } else {
        assert managed[id].port in taken - {port} && managed[id].port !in Ports(managed');
      }
    } else {
      assert managed' == managed;
    }
  }

  // ---- Ports, managed instances and the registry together ----

  ghost predicate Consistent(managed: map<string, Managed>, taken: set<int>, reg: map<string, R.Record>) {
    && Owned(managed, taken)
    && forall id :: id in managed ==>
         id in reg && reg[id].service == managed[id].service && reg[id].port == managed[id].port
  }

  lemma GivesBack(taken: set<int>, port: int)
    requires port !in taken
    ensures taken + {port} - {port} == taken
  {
  }

  lemma Unregisters(reg: map<string, R.Record>, id: string, r: R.Record)
    requires id !in reg
    ensures reg[id := r] - {id} == reg
  {
  }

  /** The controller's whole state as a value. */
  datatype Ctl = Ctl(managed: map<string, Managed>, taken: set<int>, reg: map<string, R.Record>)

  /** A new instance exists everywhere: its port is taken, it is registered and managed. */
  function Added(c: Ctl, id: string, service: string, port: int): Ctl {
    Ctl(c.managed[id := Managed(service, port, false)], c.taken + {port},
        c.reg[id := R.Record(id, service, port, R.Starting, 0, map[])])
  }

  /** A status change in the registry; a closed registry ignores it. */
  function Marked(closed: bool, reg: map<string, R.Record>, id: string, status: R.Status, now: int)
    : map<string, R.Record>
  {
    if closed || id !in reg then reg else reg[id := reg[id].(status := status, checked := now)]
  }

  /** Every way a stop can end. A failed kill leaves the instance managed with its stop channel
      closed, so that stopping it again closes the channel twice. */
  function StopResult(config: map<string, Config>, c: Ctl, id: string, env: StopEnv): Result {
    if id !in c.managed then NotManaged
    else if c.managed[id].service !in config then NotConfigured
    else if c.managed[id].stopClosed then DoubleClose
    else if !env.stops && !env.kills then NotKilled
    else Done
  }

  function AfterStop(config: map<string, Config>, closed: bool, c: Ctl, id: string, env: StopEnv): Ctl {
    match StopResult(config, c, id, env)
    case NotManaged => c
    case Done => Forgotten(closed, c, id, R.Stopped, env.now)
    case NotKilled =>
      Ctl(if id in c.managed then c.managed[id := c.managed[id].(stopClosed := true)] else c.managed,
          c.taken, Marked(closed, c.reg, id, R.Stopping, env.now))
    case _ => c.(reg := Marked(closed, c.reg, id, R.Stopping, env.now))
  }

  /** An instance is no longer managed, its port is released and its status is set. */
  function Forgotten(closed: bool, c: Ctl, id: string, status: R.Status, now: int): Ctl {
    if id !in c.managed then c
    else Ctl(c.managed - {id}, c.taken - {c.managed[id].port}, Marked(closed, c.reg, id, status, now))
  }

  /** A stop succeeds exactly for a managed, configured instance whose channel is open and whose process stops
      or can be killed. Then the instance is no longer managed and its port is free; otherwise it keeps both,
      its channel being closed if its process survived. */
  lemma StopMeans(config: map<string, Config>, closed: bool, c: Ctl, id: string, env: StopEnv)
    ensures var result, after := StopResult(config, c, id, env), AfterStop(config, closed, c, id, env);
            && (result.NotManaged? <==> id !in c.managed)
            && (result.Done? <==>
                  && id in c.managed && c.managed[id].service in config && !c.managed[id].stopClosed
                  && (env.stops || env.kills))
            && after.managed == (if result.Done? then c.managed - {id}
                                 else if result.NotKilled? && id in c.managed
                                 then c.managed[id := Managed(c.managed[id].service, c.managed[id].port, true)]
                                 else c.managed)
            && after.taken == (if result.Done? then c.taken - {c.managed[id].port} else c.taken)
  {
  }

  /** Marking an instance as stopping first makes no difference to how a stop ends. */
  lemma MarkedFirst(config: map<string, Config>, closed: bool, c: Ctl, id: string, env: StopEnv)
    requires Fits(c)
    ensures var c1 := c.(reg := Marked(closed, c.reg, id, R.Stopping, env.now));
            AfterStop(config, closed, c, id, env) ==
              match StopResult(config, c, id, env)
              case NotManaged => c
              case Done => Forgotten(closed, c1, id, R.Stopped, env.now)
              case NotKilled => c1.(managed := c.managed[id := c.managed[id].(stopClosed := true)])
              case _ => c1
  {
  }

  /** What the monitor of an instance does once the instance's process is gone. It has kept the
      instance's port and does not look whether the instance is still managed. */
  function Ticked(closed: bool, c: Ctl, id: string, port: int, now: int): Ctl {
    Ctl(c.managed - {id}, c.taken - {port}, Marked(closed, c.reg, id, R.Failed, now))
  }

  /** The monitor does no harm: the port is the instance's own or, if the instance is no longer
      managed, nobody's. */
  predicate Harmless(c: Ctl, id: string, port: int) {
    if id in c.managed then c.managed[id].port == port else port !in c.taken
  }

  /** Closing the controller closes every managed instance's stop channel. */
  function CloseResult(c: Ctl): Result {
    if forall id :: id in c.managed ==> !c.managed[id].stopClosed then Done else DoubleClose
  }

  ghost predicate Fits(c: Ctl) {
    Consistent(c.managed, c.taken, c.reg)
  }

  lemma StartingFits(c: Ctl, id: string, service: string, port: int)
    requires Fits(c) && id !in c.reg && port !in c.taken
    ensures Fits(Added(c, id, service, port))
  {
    AddOwned(c.managed, c.taken, id, Managed(service, port, false));
  }

  lemma ForgettingFits(closed: bool, c: Ctl, id: string, status: R.Status, now: int)
    requires Fits(c)
    ensures Fits(Forgotten(closed, c, id, status, now))
  {
    if id in c.managed {
      ReleaseKeepsOwned(c.managed, c.taken, id, c.managed[id].port);
    }
  }

  lemma MarkingFits(closed: bool, c: Ctl, id: string, status: R.Status, now: int)
    requires Fits(c)
    ensures Fits(c.(reg := Marked(closed, c.reg, id, status, now)))
  {
  }

  lemma ClosingStopFits(c: Ctl, id: string)
    requires Fits(c) && id in c.managed
    ensures Fits(c.(managed := c.managed[id := c.managed[id].(stopClosed := true)]))
  {
    var managed := c.managed[id := c.managed[id].(stopClosed := true)];
    assert forall a :: a in c.managed ==> managed[a].port == c.managed[a].port;
    assert Ports(managed) == Ports(c.managed);
  }

  lemma TickingFits(closed: bool, c: Ctl, id: string, port: int, now: int)
    requires Fits(c)
    ensures Fits(Ticked(closed, c, id, port, now)) <==> Harmless(c, id, port)
  {
    ReleaseKeepsOwned(c.managed, c.taken, id, port);
    MarkingFits(closed, c, id, R.Failed, now);
  }

  lemma StoppingFits(config: map<string, Config>, closed: bool, c: Ctl, id: string, env: StopEnv)
    requires Fits(c)
    ensures Fits(AfterStop(config, closed, c, id, env))
  {
    MarkingFits(closed, c, id, R.Stopping, env.now);
    match StopResult(config, c, id, env)
    case Done => ForgettingFits(closed, c, id, R.Stopped, env.now);
    case NotKilled => ClosingStopFits(c.(reg := Marked(closed, c.reg, id, R.Stopping, env.now)), id);
    case _ =>
  }

  // ---- Live instances ----

  predicate IsLive(status: R.Status) {
    status.Running? || status.Starting?
  }

  ghost function Live(reg: map<string, R.Record>, service: string): set<string> {
    set id | id in reg && reg[id].service == service && IsLive(reg[id].status)
  }

  /** Nothing about instances of other services has changed. */
  ghost predicate OthersSame(reg: map<string, R.Record>, reg': map<string, R.Record>, service: string) {
    forall id ::
      && (id in reg && reg[id].service != service <==> id in reg' && reg'[id].service != service)
      && (id in reg && reg[id].service != service ==> reg'[id] == reg[id])
  }

  /** The controller can scale the service: it is configured under its own name, the registry is open,
      and every live instance is managed and has not been told to stop. */
  ghost predicate Ready(config: map<string, Config>, closed: bool, c: Ctl, service: string) {
    && service in config && config[service].name == service && !closed
    && forall id :: id in Live(c.reg, service) ==> id in c.managed && !c.managed[id].stopClosed
  }

  lemma NothingLeft(left: map<string, Managed>, taken: set<int>)
    requires Owned(left, taken) && left.Keys == {}
    ensures taken == {} && Owned(map[], taken)
  {
  }

  /** The registry after a status change of some instances; a closed registry ignores it. */
  ghost function MarkedAll(closed: bool, reg: map<string, R.Record>, ids: set<string>, status: R.Status, now: int)
    : map<string, R.Record>
  {
    map id | id in reg :: if id in ids && !closed then reg[id].(status := status, checked := now) else reg[id]
  }

  /** What is left to do, and the effect of what is done, in the middle of a cleanup. */
  ghost predicate Cleaning(closed: bool, start: Ctl, c: Ctl, dead: set<string>, remaining: set<string>, now: int) {
    && remaining <= c.managed.Keys
    && c.managed == start.managed - (dead - remaining)
    && c.reg == MarkedAll(closed, start.reg, (start.managed.Keys - remaining) * dead, R.Failed, now)
  }

  lemma CleaningStarts(closed: bool, c: Ctl, dead: set<string>, now: int)
    ensures Cleaning(closed, c, c, dead, c.managed.Keys, now)
  {
  }

  lemma CleaningStep(closed: bool, start: Ctl, c: Ctl, dead: set<string>, remaining: set<string>, now: int, id: string)
    requires Cleaning(closed, start, c, dead, remaining, now) && id in remaining
    ensures Cleaning(closed, start, if id in dead then Forgotten(closed, c, id, R.Failed, now) else c,
                     dead, remaining - {id}, now)
  {
  }

  lemma CleaningEnds(closed: bool, start: Ctl, c: Ctl, dead: set<string>, now: int)
    requires Cleaning(closed, start, c, dead, {}, now)
    ensures c.managed == start.managed - dead
    ensures c.reg == MarkedAll(closed, start.reg, start.managed.Keys * dead, R.Failed, now)
  {
  }

  /** What is left to do, and the effect of what is done, in the middle of closing: the instances that
      remain own the ports still taken, and the others are marked as stopped. */
  ghost predicate Closing(closed: bool, start: Ctl, c: Ctl, remaining: set<string>, now: int) {
    && remaining <= start.managed.Keys && c.managed == start.managed
    && Owned(start.managed - (start.managed.Keys - remaining), c.taken)
    && c.reg == MarkedAll(closed, start.reg, start.managed.Keys - remaining, R.Stopped, now)
    && forall id :: id in start.managed && id !in remaining ==> !start.managed[id].stopClosed
  }

  lemma ClosingStarts(closed: bool, c: Ctl, now: int)
    requires Owned(c.managed, c.taken)
    ensures Closing(closed, c, c, c.managed.Keys, now)
  {
    assert c.managed - (c.managed.Keys - c.managed.Keys) == c.managed;
  }

  /** Releasing the port of one more instance and marking it as stopped. */
  lemma ClosingStep(closed: bool, start: Ctl, c: Ctl, remaining: set<string>, now: int, id: string)
    requires Closing(closed, start, c, remaining, now) && id in remaining && !start.managed[id].stopClosed
    ensures Closing(closed, start, Ctl(c.managed, c.taken - {start.managed[id].port},
                                       Marked(closed, c.reg, id, R.Stopped, now)), remaining - {id}, now)
  {
    var all := start.managed;
    var left := all - (all.Keys - remaining);
    ReleaseKeepsOwned(left, c.taken, id, all[id].port);
    assert all - (all.Keys - (remaining - {id})) == left - {id};
  }

  lemma ClosingEnds(closed: bool, start: Ctl, c: Ctl, now: int)
    requires Closing(closed, start, c, {}, now)
    ensures Owned(map[], c.taken) && CloseResult(start) == Done
    ensures c.reg == MarkedAll(closed, start.reg, start.managed.Keys, R.Stopped, now)
  {
    assert start.managed - (start.managed.Keys - {}) == map[];
  }

  lemma SameAgain(a: map<string, R.Record>, b: map<string, R.Record>, c: map<string, R.Record>, service: string)
    requires OthersSame(a, b, service) && OthersSame(b, c, service)
    ensures OthersSame(a, c, service)
  {
  }

  /** A service that could be scaled still can, has n more live instances, and others are untouched. */
  ghost predicate GrownBy(config: map<string, Config>, closed: bool, c: Ctl, c': Ctl, service: string, n: nat) {
    Ready(config, closed, c, service) ==>
      && Ready(config, closed, c', service)
      && |Live(c'.reg, service)| == |Live(c.reg, service)| + n
      && OthersSame(c.reg, c'.reg, service)
  }

  lemma StartGrows(config: map<string, Config>, closed: bool, c: Ctl, id: string, service: string, port: int)
    requires id !in c.reg
    ensures GrownBy(config, closed, c, Added(c, id, service, port), service, 1)
  {
    assert Live(Added(c, id, service, port).reg, service) == Live(c.reg, service) + {id};
  }

  /** What scaling a service promises: on success it has exactly the wanted number of live instances
      (none, if that number is negative), on an error part-way the number lies between the old one and
      the wanted one, and other services are untouched. */
  ghost predicate Scaled(reg: map<string, R.Record>, reg': map<string, R.Record>, service: string,
                         wanted: int, result: Result)
  {
    var was, now := |Live(reg, service)|, |Live(reg', service)|;
    && (result.Done? || result.NoPort? || result.NotRegistered? || result.NotStarted? || result.NotKilled?)
    && (result.Done? ==> now == Max0(wanted))
    && (was <= now <= Max0(wanted) || Max0(wanted) <= now <= was)
    && OthersSame(reg, reg', service)
  }

  lemma GrowthScales(config: map<string, Config>, closed: bool, c: Ctl, c': Ctl, service: string, n: nat,
                     wanted: int, result: Result)
    requires GrownBy(config, closed, c, c', service, n)
    requires result.Done? || result.NoPort? || result.NotRegistered? || result.NotStarted?
    requires var was := |Live(c.reg, service)|;
             Ready(config, closed, c, service) ==> was + n <= wanted && (result.Done? ==> was + n == wanted)
    ensures Ready(config, closed, c, service) ==> Scaled(c.reg, c'.reg, service, wanted, result)
  {
  }

  lemma NothingGrows(config: map<string, Config>, closed: bool, c: Ctl, service: string)
    ensures GrownBy(config, closed, c, c, service, 0)
  {
  }

  lemma GrowsAgain(config: map<string, Config>, closed: bool, c0: Ctl, c1: Ctl, c2: Ctl, service: string,
                   m: nat, n: nat)
    requires GrownBy(config, closed, c0, c1, service, m) && GrownBy(config, closed, c1, c2, service, n)
    ensures GrownBy(config, closed, c0, c2, service, m + n)
  {
  }

  /** Stopping a live instance makes it not live, whether or not the stop succeeds. */
  lemma StopRemovesLive(config: map<string, Config>, c: Ctl, id: string, env: StopEnv, service: string)
    requires Fits(c) && Ready(config, false, c, service) && id in Live(c.reg, service)
    ensures var c' := AfterStop(config, false, c, id, env);
            && StopResult(config, c, id, env) in {Done, NotKilled}
            && Live(c'.reg, service) == Live(c.reg, service) - {id}
            && Ready(config, false, c', service)
            && OthersSame(c.reg, c'.reg, service)
  {
  }

  class ServiceController {
    const config: map<string, Config>
    const registry: R.InMemoryRegistry
    const ports: PortAllocator
    var instances: map<string, Managed>

    ghost predicate Valid()
      reads this, registry, ports, registry.instances.Values
    {
      && registry.Valid() && ports.Valid()
      && Consistent(instances, ports.taken, registry.table)
    }

    ghost function Value(): Ctl
      reads this, ports, registry
    {
      Ctl(instances, ports.taken, registry.table)
    }

    constructor (config: map<string, Config>, registry: R.InMemoryRegistry)
      requires registry.Valid()
      ensures Valid() && this.config == config && this.registry == registry && instances == map[] && fresh(ports)
      ensures ports.minPort == 8100 && ports.maxPort == 8200
    {
      this.config, this.registry, instances := config, registry, map[];
      ports := new PortAllocator(8100, 8200);
    }

    /** A fresh instance object, handed to the registry. */
    method RegisterNew(id: string, service: string, port: int) returns (outcome: R.Outcome)
      requires registry.Valid()
      modifies registry
      ensures forall i :: i in registry.instances.Values ==> i in old(registry.instances.Values) || fresh(i)
      ensures registry.Valid() && registry.closed == old(registry.closed)
      ensures outcome.Ok? ==> id !in old(registry.table) && !registry.closed
      ensures registry.table ==
                if outcome.Ok? then old(registry.table)[id := R.Record(id, service, port, R.Starting, 0, map[])]
                else old(registry.table)
      ensures !outcome.Ok? ==> registry.instances == old(registry.instances)
    {
      var instance := new R.Instance(id, service, port, R.Starting, 0);
      outcome := registry.Register(instance);
    }

    /** Everything after the allocation of a port: register, start the process, manage the instance;
        a failure gives the port back. */
    method StartOn(service: Config, port: int, id: string, starts: bool, ghost before: Ctl) returns (result: Result)
      requires registry.Valid() && ports.Valid() && Fits(before) && port !in before.taken
      requires Value() == before.(taken := before.taken + {port})
      modifies this, registry, ports
      ensures forall i :: i in registry.instances.Values ==> i in old(registry.instances.Values) || fresh(i)
      ensures Valid() && registry.closed == old(registry.closed)
      ensures result == Started(id) || result.NotRegistered? || result.NotStarted?
      ensures (result.Started? ==> starts) && (result.NotStarted? ==> !starts)
      ensures result.Started? ==> id !in before.reg
      ensures Value() == if result.Started? then Added(before, id, service.name, port) else before
    {
      var registered := RegisterNew(id, service.name, port);
      if !registered.Ok? {
        GivesBack(before.taken, port);
        ports.Release(port);
        return NotRegistered;
      }
      result := Launch(service, port, id, starts, before);
    }

    /** Takes back the registration and the port. */
    method Undo(service: Config, port: int, id: string, ghost before: Ctl)
      requires registry.Valid() && ports.Valid() && !registry.closed && port !in before.taken && id !in before.reg
      requires Value() == Added(before, id, service.name, port).(managed := before.managed)
      modifies registry, ports
      ensures registry.instances.Values <= old(registry.instances.Values)
      ensures registry.Valid() && ports.Valid() && !registry.closed && Value() == before
    {
      GivesBack(before.taken, port);
      Unregisters(before.reg, id, R.Record(id, service.name, port, R.Starting, 0, map[]));
      var _ := registry.Deregister(id);
      ports.Release(port);
    }

    /** The process of a registered instance starts, or the registration and the port are undone. */
    method Launch(service: Config, port: int, id: string, starts: bool, ghost before: Ctl) returns (result: Result)
      requires registry.Valid() && ports.Valid() && !registry.closed
      requires Fits(before) && port !in before.taken && id !in before.reg
      requires Value() == Added(before, id, service.name, port).(managed := before.managed)
      modifies this, registry, ports
      ensures registry.instances.Values <= old(registry.instances.Values)
      ensures Valid() && !registry.closed
      ensures result == if starts then Started(id) else NotStarted
      ensures Value() == if starts then Added(before, id, service.name, port) else before
    {
      if !starts {
        Undo(service, port, id, before);
        return NotStarted;
      }
      StartingFits(before, id, service.name, port);
      instances := instances[id := Managed(service.name, port, false)];
      return Started(id);
    }

    method TakePort(free: set<int>) returns (port: Option<int>)
      requires Valid()
      modifies ports
      ensures registry.Valid() && ports.Valid()
      ensures var usable := Range(ports.minPort, ports.maxPort) * free - old(ports.taken);
              if port.Some? then port.value in usable && forall p :: p in usable ==> port.value <= p else usable == {}
      ensures Value() == if port.Some? then old(Value()).(taken := old(ports.taken) + {port.value}) else old(Value())
      ensures port.None? ==> Valid()
    {
      port := ports.Allocate(free);
    }

    /** Either a new instance exists everywhere (port, registry, managed) or nothing has changed. */
    method StartInstance(service: Config, env: StartEnv) returns (result: Result, port: int)
      requires Valid()
      modifies this, registry, ports
      ensures forall i :: i in registry.instances.Values ==> i in old(registry.instances.Values) || fresh(i)
      ensures Valid() && registry.closed == old(registry.closed)
      ensures result.Started? || result.NoPort? || result.NotRegistered? || result.NotStarted?
      ensures result.Started? ==> result.id !in old(registry.table) && port in env.free - old(ports.taken)
      ensures var usable := Range(ports.minPort, ports.maxPort) * env.free - old(ports.taken);
              && (result.NoPort? <==> usable == {})
              && (!result.NoPort? ==> port in usable && forall p :: p in usable ==> port <= p)
      ensures Value() == if result.Started? then Added(old(Value()), result.id, service.name, port) else old(Value())
      ensures result.Started? ==>
                && result.id == env.ids(port) && env.starts && port in ports.taken
                && result.id in instances && instances[result.id] == Managed(service.name, port, false)
                && result.id in registry.table
                && registry.table[result.id] == R.Record(result.id, service.name, port, R.Starting, 0, map[])
      ensures result.NotStarted? ==> !env.starts
    {
      ghost var before := Value();
      var allocation := TakePort(env.free);
      if allocation.None? {
        return NoPort, 0;
      }
      port := allocation.value;
      result := StartOn(service, port, env.ids(port), env.starts, before);
    }

    method StopInstance(id: string, env: StopEnv) returns (result: Result)
      requires Valid()
      modifies this, ports, registry`table, registry.instances.Values
      ensures Valid()
      ensures result == StopResult(config, old(Value()), id, env)
      ensures Value() == AfterStop(config, registry.closed, old(Value()), id, env)
    {
      if id !in instances {
        return NotManaged;
      }
      StoppingFits(config, registry.closed, Value(), id, env);
      result := StopManaged(id, env);
    }

    method StopManaged(id: string, env: StopEnv) returns (result: Result)
      requires registry.Valid() && ports.Valid() && Fits(Value()) && id in instances
      modifies this, ports, registry`table, registry.instances.Values
      ensures registry.Valid() && ports.Valid()
      ensures result == StopResult(config, old(Value()), id, env)
      ensures Value() == AfterStop(config, registry.closed, old(Value()), id, env)
    {
      var managed := instances[id];
      MarkedFirst(config, registry.closed, Value(), id, env);
      MarkStopping(id, env.now);
      if managed.service !in config {
        return NotConfigured;
      }
      if managed.stopClosed {
        return DoubleClose;
      }
      result := Terminate(id, env);
    }

    method MarkStopping(id: string, now: int)
      requires registry.Valid() && ports.Valid() && id in registry.table
      modifies registry`table, registry.instances.Values
      ensures registry.Valid() && ports.Valid() && id in registry.table
      ensures Value() == old(Value()).(reg := Marked(registry.closed, old(registry.table), id, R.Stopping, now))
    {
      var _ := registry.UpdateStatus(id, R.Stopping, now);
    }

    /** Stopping the process of an instance already marked as stopping, by force if need be. */
    method Terminate(id: string, env: StopEnv) returns (result: Result)
      requires registry.Valid() && ports.Valid() && id in instances && id in registry.table
      modifies this, ports, registry`table, registry.instances.Values
      ensures registry.Valid() && ports.Valid()
      ensures result == if !env.stops && !env.kills then NotKilled else Done
      ensures Value() == if result.Done? then Forgotten(registry.closed, old(Value()), id, R.Stopped, env.now)
                         else old(Value()).(managed := old(instances)[id := old(instances)[id].(stopClosed := true)])
    {
      var managed := instances[id];
      if !env.stops && !env.kills {
        instances := instances[id := managed.(stopClosed := true)];
        return NotKilled;
      }
      ports.Release(managed.port);
      instances := instances - {id};
      var _ := registry.UpdateStatus(id, R.Stopped, env.now);
      return Done;
    }

    /** Forgetting a managed instance whose process is gone. */
    method Forget(id: string, status: R.Status, now: int)
      requires Valid() && id in instances
      modifies this, ports, registry`table, registry.instances.Values
      ensures Valid() && Value() == Forgotten(registry.closed, old(Value()), id, status, now)
    {
      ForgettingFits(registry.closed, Value(), id, status, now);
      ports.Release(instances[id].port);
      instances := instances - {id};
      var _ := registry.UpdateStatus(id, status, now);
    }

    /** One tick of the monitor of an instance that was started on this port. Cleanup, or a stop that
        the monitor was waiting for, may have removed the instance already: then ownership of the ports
        survives exactly if nobody has the port now. */
    method MonitorTick(id: string, port: int, isRunning: bool, now: int)
      requires Valid()
      modifies this, ports, registry`table, registry.instances.Values
      ensures registry.Valid() && ports.Valid()
      ensures Value() == if isRunning then old(Value()) else Ticked(registry.closed, old(Value()), id, port, now)
      ensures instances == (if isRunning then old(instances) else old(instances) - {id})
      ensures ports.taken == (if isRunning then old(ports.taken) else old(ports.taken) - {port})
      ensures Valid() <==> isRunning || Harmless(old(Value()), id, port)
    {
      if !isRunning {
        TickingFits(registry.closed, Value(), id, port, now);
        Expire(id, port, now);
      }
    }

    method Expire(id: string, port: int, now: int)
      requires registry.Valid() && ports.Valid()
      modifies this, ports, registry`table, registry.instances.Values
      ensures registry.Valid() && ports.Valid()
      ensures Value() == Ticked(registry.closed, old(Value()), id, port, now)
    {
      var _ := registry.UpdateStatus(id, R.Failed, now);
      ports.Release(port);
      instances := instances - {id};
    }

    /** Every managed instance whose process is gone is forgotten, in any order, and marked as failed. */
    method Cleanup(dead: set<string>, now: int)
      requires Valid()
      modifies this, ports, registry`table, registry.instances.Values
      ensures Valid() && instances == old(instances) - dead
      ensures registry.table
              == MarkedAll(registry.closed, old(registry.table), old(instances).Keys * dead, R.Failed, now)
    {
      var remaining := instances.Keys;
      ghost var start := Value();
      CleaningStarts(registry.closed, start, dead, now);
      while remaining != {}
        invariant Valid() && Cleaning(registry.closed, start, Value(), dead, remaining, now)
        decreases remaining
      {
        remaining := CleanupNext(remaining, dead, now, start);
      }
      CleaningEnds(registry.closed, start, Value(), dead, now);
    }

    method CleanupNext(remaining: set<string>, dead: set<string>, now: int, ghost start: Ctl)
      returns (rest: set<string>)
      requires Valid() && remaining != {} && Cleaning(registry.closed, start, Value(), dead, remaining, now)
      modifies this, ports, registry`table, registry.instances.Values
      ensures Valid() && rest < remaining && Cleaning(registry.closed, start, Value(), dead, rest, now)
    {
      var id :| id in remaining;
      rest := remaining - {id};
      CleaningStep(registry.closed, start, Value(), dead, remaining, now, id);
      if id in dead {
        Forget(id, R.Failed, now);
      }
    }

    /** Closing releases everything and marks every managed instance as stopped, unless an earlier stop
        already closed an instance's channel: then closing it again panics. */
    method Close(now: int) returns (result: Result)
      requires Valid()
      modifies this, ports, registry`table, registry.instances.Values
      ensures result == CloseResult(old(Value()))
      ensures result.Done? ==> Valid() && instances == map[] && ports.taken == {}
      ensures result.Done? ==>
                registry.table == MarkedAll(registry.closed, old(registry.table), old(instances).Keys, R.Stopped, now)
    {
      result := CloseAll(now);
      if result.Done? {
        NothingLeft(map[], ports.taken);
        instances := map[];
      }
    }

    method CloseAll(now: int) returns (result: Result)
      requires registry.Valid() && ports.Valid() && Owned(instances, ports.taken)
      modifies ports, registry`table, registry.instances.Values
      ensures registry.Valid() && ports.Valid()
      ensures result == CloseResult(old(Value()))
      ensures result.Done? ==> Owned(map[], ports.taken)
      ensures result.Done? ==>
                registry.table == MarkedAll(registry.closed, old(registry.table), instances.Keys, R.Stopped, now)
    {
      var remaining := instances.Keys;
      ghost var start := Value();
      ClosingStarts(registry.closed, start, now);
      while remaining != {}
        invariant registry.Valid() && ports.Valid() && Closing(registry.closed, start, Value(), remaining, now)
        decreases remaining
      {
        var id :| id in remaining;
        if instances[id].stopClosed {
          return DoubleClose;
        }
        ClosingStep(registry.closed, start, Value(), remaining, now, id);
        CloseOne(id, now);
        remaining := remaining - {id};
      }
      ClosingEnds(registry.closed, start, Value(), now);
      return Done;
    }

    method CloseOne(id: string, now: int)
      requires registry.Valid() && ports.Valid() && id in instances
      modifies ports, registry`table, registry.instances.Values
      ensures registry.Valid() && ports.Valid()
      ensures Value() == Ctl(instances, old(ports.taken) - {instances[id].port},
                             Marked(registry.closed, old(registry.table), id, R.Stopped, now))
    {
      ports.Release(instances[id].port);
      var _ := registry.UpdateStatus(id, R.Stopped, now);
    }

    // ---- Scaling ----

    /** A start as ScaleService sees it. */
    method StartOne(service: Config, env: StartEnv) returns (result: Result)
      requires Valid()
      modifies this, registry, ports
      ensures forall i :: i in registry.instances.Values ==> i in old(registry.instances.Values) || fresh(i)
      ensures Valid() && registry.closed == old(registry.closed)
      ensures result.Started? || result.NoPort? || result.NotRegistered? || result.NotStarted?
      ensures GrownBy(config, registry.closed, old(Value()), Value(), service.name, if result.Started? then 1 else 0)
    {
      ghost var before := Value();
      var port: int;
      result, port := StartInstance(service, env);
      if result.Started? {
        StartGrows(config, registry.closed, before, result.id, service.name, port);
      } else {
        NothingGrows(config, registry.closed, before, service.name);
      }
    }

    method ScaleOut(service: Config, toStart: nat, starts: nat -> StartEnv) returns (result: Result, started: nat)
      requires Valid()
      modifies this, registry, ports
      ensures forall i :: i in registry.instances.Values ==> i in old(registry.instances.Values) || fresh(i)
      ensures Valid() && registry.closed == old(registry.closed)
      ensures result.Done? || result.NoPort? || result.NotRegistered? || result.NotStarted?
      ensures started <= toStart && (result.Done? ==> started == toStart)
      ensures GrownBy(config, registry.closed, old(Value()), Value(), service.name, started)
    {
      ghost var start := Value();
      started := 0;
      NothingGrows(config, registry.closed, start, service.name);
      while started < toStart
        invariant Valid() && started <= toStart && registry.closed == old(registry.closed)
        invariant forall i :: i in registry.instances.Values ==> i in old(registry.instances.Values) || fresh(i)
        invariant GrownBy(config, registry.closed, start, Value(), service.name, started)
      {
        ghost var before := Value();
        result := StartOne(service, starts(started));
        GrowsAgain(config, registry.closed, start, before, Value(), service.name, started,
                   if result.Started? then 1 else 0);
        if !result.Started? {
          return;
        }
        started := started + 1;
      }
      result := Done;
    }

    /** A stop as ScaleService sees it. */
    method StopOne(service: string, id: string, env: StopEnv) returns (result: Result)
      requires Valid()
      modifies this, ports, registry`table, registry.instances.Values
      ensures Valid() && !result.Started?
      ensures old(Ready(config, registry.closed, Value(), service) && id in Live(registry.table, service)) ==>
                && Ready(config, registry.closed, Value(), service)
                && (result.Done? || result.NotKilled?)
                && Live(registry.table, service) == Live(old(registry.table), service) - {id}
                && OthersSame(old(registry.table), registry.table, service)
    {
      if Ready(config, registry.closed, Value(), service) && id in Live(registry.table, service) {
        StopRemovesLive(config, Value(), id, env, service);
      }
      result := StopInstance(id, env);
    }

    /** The listed records are the live instances of a service that can be scaled, and since `start`
        nothing has happened to other services. */
    ghost predicate Scaling(service: string, list: seq<R.Record>, start: map<string, R.Record>)
      reads this, ports, registry
    {
      && Ready(config, registry.closed, Value(), service)
      && DistinctRecords(list) && Ids(list) == Live(registry.table, service)
      && OthersSame(start, registry.table, service)
    }

    method StopLast(service: string, list: seq<R.Record>, env: StopEnv, ghost start: map<string, R.Record>)
      returns (result: Result)
      requires Valid() && list != []
      modifies this, ports, registry`table, registry.instances.Values
      ensures Valid() && !result.Started?
      ensures old(Scaling(service, list, start)) ==>
                Scaling(service, list[..|list| - 1], start) && (result.Done? || result.NotKilled?)
    {
      ghost var before, scaling := registry.table, Scaling(service, list, start);
      if scaling {
        DistinctIds(list);
      }
      result := StopOne(service, list[|list| - 1].id, env);
      if scaling {
        SameAgain(start, before, registry.table, service);
      }
    }

    /** Stops the last `toStop` of the listed instances; on a failed stop, as many as were tried. */
    method StopTail(service: string, list: seq<R.Record>, toStop: nat, stops: nat -> StopEnv)
      returns (result: Result, stopped: nat)
      requires Valid()
      modifies this, ports, registry`table, registry.instances.Values
      ensures Valid() && !result.Started?
      ensures stopped <= toStop && stopped <= |list| && (result.Done? ==> stopped == toStop || stopped == |list|)
      ensures old(Scaling(service, list, registry.table)) ==>
                Scaling(service, list[..|list| - stopped], old(registry.table)) && (result.Done? || result.NotKilled?)
    {
      stopped := 0;
      ghost var start, scaling := registry.table, Scaling(service, list, registry.table);
      assert list[..|list|] == list;
      while stopped < toStop && stopped < |list|
        invariant stopped <= toStop && stopped <= |list|
        invariant Valid() && (scaling ==> Scaling(service, list[..|list| - stopped], start))
      {
        var left := list[..|list| - stopped];
        result := StopLast(service, left, stops(stopped), start);
        stopped := stopped + 1;
        assert left[..|left| - 1] == list[..|list| - stopped];
        if !result.Done? {
          return;
        }
      }
      result := Done;
    }

    method ScaleIn(service: string, list: seq<R.Record>, toStop: nat, stops: nat -> StopEnv) returns (result: Result)
      requires Valid()
      modifies this, ports, registry`table, registry.instances.Values
      ensures Valid() && !result.Started?
      ensures old(Scaling(service, list, registry.table)) ==>
                Scaled(old(registry.table), registry.table, service, |list| - toStop, result)
    {
      var stopped: nat;
      result, stopped := StopTail(service, list, toStop, stops);
      TailScales(old(registry.table), registry.table, service, list, stopped, toStop, result);
    }

    /** ScaleService, when the service can be scaled at all. */
    method ScaleService(service: string, targetCount: int, starts: nat -> StartEnv, stops: nat -> StopEnv)
      returns (result: Result)
      requires Valid()
      modifies this, ports, registry, registry.instances.Values
      ensures forall i :: i in registry.instances.Values ==> i in old(registry.instances.Values) || fresh(i)
      ensures Valid() && (service !in config ==> result == NotConfigured && Value() == old(Value()))
      ensures old(Ready(config, registry.closed, Value(), service)) ==>
                Scaled(old(registry.table), registry.table, service, targetCount, result)
    {
      ghost var before := Value();
      if service !in config {
        return NotConfigured;
      }
      var currentInstances := registry.GetByService(service);
      var running := FilterLive(currentInstances);
      AllLive(registry.table, service, currentInstances, running);
      DistinctIds(running);
      if targetCount > |running| {
        var started: nat;
        result, started := ScaleOut(config[service], targetCount - |running|, starts);
        GrowthScales(config, registry.closed, before, Value(), service, started, targetCount, result);
      } else if targetCount < |running| {
        result := ScaleIn(service, running, |running| - targetCount, stops);
      } else {
        result := Done;
      }
    }
  }

  function Max0(n: int): nat {
    if n < 0 then 0 else n
  }

  ghost function Ids(list: seq<R.Record>): set<string> {
    set r | r in list :: r.id
  }

  ghost predicate DistinctRecords(list: seq<R.Record>) {
    forall i, j :: 0 <= i < j < |list| ==> list[i].id != list[j].id
  }

  /** The running or starting instances of a list, in order. */
  method FilterLive(list: seq<R.Record>) returns (live: seq<R.Record>)
    ensures forall r :: r in live <==> r in list && IsLive(r.status)
    ensures DistinctRecords(list) ==> DistinctRecords(live)
  {
    live := [];
    for i := 0 to |list|
      invariant forall r :: r in live <==> r in list[..i] && IsLive(r.status)
      invariant DistinctRecords(list) ==> DistinctRecords(live)
    {
      assert list[..i + 1] == list[..i] + [list[i]];
      if IsLive(list[i].status) {
        assert forall r :: r in list[..i] ==> exists j :: 0 <= j < i && list[j] == r;
        live := live + [list[i]];
      }
    }
    assert list[..|list|] == list;
  }

  /** The live records of a service's listing are the service's live instances. */
  lemma AllLive(m: map<string, R.Record>, service: string, list: seq<R.Record>, live: seq<R.Record>)
    requires R.Lists(list, m, R.OfService(m, service))
    requires forall id :: id in m ==> m[id].id == id
    requires forall r :: r in live <==> r in list && IsLive(r.status)
    ensures Ids(live) == Live(m, service)
  {
  }

  lemma HeadCount(list: seq<R.Record>, stopped: nat)
    requires stopped <= |list|
    ensures DistinctRecords(list) ==> |Ids(list)| == |list| && |Ids(list[..|list| - stopped])| == |list| - stopped
  {
    if DistinctRecords(list) {
      DistinctIds(list);
      DistinctIds(list[..|list| - stopped]);
    }
  }

  /** Stopping a number of instances from the end of the list of live ones. */
  lemma TailScales(reg: map<string, R.Record>, reg': map<string, R.Record>, service: string, list: seq<R.Record>,
                   stopped: nat, toStop: nat, result: Result)
    requires stopped <= toStop && stopped <= |list| && (result.Done? ==> stopped == toStop || stopped == |list|)
    ensures && DistinctRecords(list) && Ids(list) == Live(reg, service)
            && Ids(list[..|list| - stopped]) == Live(reg', service) && OthersSame(reg, reg', service)
            && (result.Done? || result.NotKilled?) ==>
              Scaled(reg, reg', service, |list| - toStop, result)
  {
    HeadCount(list, stopped);
  }

  lemma {:induction false} DistinctIds(list: seq<R.Record>)
    requires DistinctRecords(list)
    ensures |Ids(list)| == |list|
    ensures list != [] ==> var last := list[|list| - 1].id;
                           last in Ids(list) && Ids(list[..|list| - 1]) == Ids(list) - {last}
  {
    if list != [] {
      var before, last := list[..|list| - 1], list[|list| - 1];
      DistinctIds(before);
      assert forall r :: r in list <==> r in before || r == last;
      assert Ids(list) == Ids(before) + {last.id};
    }
  }
}
