/** The in-memory service registry. The instances are objects shared between the table by identifier
    and the index by service, so a status written through one is seen through the other. */
module Registry {
  datatype Status = Starting | Running | Unhealthy | Stopping | Stopped | Failed

  datatype Outcome = Ok | InvalidInstance | RegistryClosed | AlreadyRegistered | NotFound

  /** What an instance says about itself; times are parameters. */
  datatype Record = Record(
    id: string, service: string, port: int, status: Status, checked: int, metrics: map<string, real>)

  class Instance {
    const id: string
    const service: string
    const port: int
    var status: Status
    var lastHealthCheck: int
    var metrics: map<string, real>

    constructor (id: string, service: string, port: int, status: Status, now: int)
      ensures Value() == Record(id, service, port, status, now, map[])
    {
      this.id, this.service, this.port, this.status, lastHealthCheck := id, service, port, status, now;
      metrics := map[];
    }

    function Value(): Record
      reads this
    {
      Record(id, service, port, status, lastHealthCheck, metrics)
    }
  }

  datatype ServiceState = ServiceState(
    current: nat, healthy: nat, instances: map<string, Record>, metrics: map<string, real>)

  ghost function OfService(m: map<string, Record>, service: string): set<string> {
    set id | id in m && m[id].service == service
  }

  ghost function HealthyOf(m: map<string, Record>, service: string): set<string> {
    set id | id in m && m[id].service == service && m[id].status.Running?
  }

  /** A list of the records under some identifiers, each once, in any order. */
  ghost predicate Lists(list: seq<Record>, m: map<string, Record>, ids: set<string>) {
    && |list| == |ids|
    && (forall i, j :: 0 <= i < j < |list| ==> list[i].id != list[j].id)
    && (forall id :: id in ids ==> id in m && m[id] in list)
    && (forall r :: r in list ==> r.id in ids && r.id in m && m[r.id] == r)
  }

  /** The records of one bucket, in any order. */
  method Collect(bucket: map<string, Instance>, onlyHealthy: bool) returns (list: seq<Record>)
    requires forall id :: id in bucket ==> bucket[id].id == id
    ensures Collected(list, bucket, Chosen(bucket, onlyHealthy))
  {
    list := [];
    var remaining := bucket.Keys;
    ghost var done: set<string> := {};
    while remaining != {}
      invariant done <= bucket.Keys && remaining <= bucket.Keys && done !! remaining
      invariant forall id :: id in bucket && id !in remaining ==>
                  (id in done <==> !onlyHealthy || bucket[id].status.Running?)
      invariant Collected(list, bucket, done)
      decreases remaining
    {
      var id :| id in remaining;
      remaining := remaining - {id};
      if !onlyHealthy || bucket[id].status.Running? {
        list := list + [bucket[id].Value()];
        done := done + {id};
      }
    }
    assert done == Chosen(bucket, onlyHealthy);
  }

  // ---- Averaged metrics ----

  function ValueIn(metrics: map<string, real>, name: string): real {
    if name in metrics then metrics[name] else 0.0
  }

  /** Every metric some record has. */
  ghost function MetricNames(records: map<string, Record>): set<string> {
    set id, name | id in records && name in records[id].metrics :: name
  }

  /** The sum of a metric over the records that have it. */
  ghost function MetricTotal(records: map<string, Record>, name: string): real
    decreases |records|
  {
    if records == map[] then 0.0
    else
      var id :| id in records;
      ValueIn(records[id].metrics, name) + MetricTotal(records - {id}, name)
  }

  /** The sum does not depend on the order of iteration. */
  lemma {:induction false} MetricSplits(records: map<string, Record>, name: string, id: string)
    requires id in records
    ensures MetricTotal(records, name) == ValueIn(records[id].metrics, name) + MetricTotal(records - {id}, name)
    decreases |records|
  {
    var first :| first in records && MetricTotal(records, name)
                   == ValueIn(records[first].metrics, name) + MetricTotal(records - {first}, name);
    if first != id {
      MetricSplits(records - {first}, name, id);
      MetricSplits(records - {id}, name, first);
      assert records - {first} - {id} == records - {id} - {first};
    }
  }

  /** n times a value. */
  function Times(value: real, n: nat): real {
    if n == 0 then 0.0 else value + Times(value, n - 1)
  }

  lemma {:induction false} TimesIsProduct(value: real, n: nat)
    ensures Times(value, n) == value * n as real
  {
    if n > 0 {
      TimesIsProduct(value, n - 1);
    }
  }

  lemma {:induction false} UniformTotal(records: map<string, Record>, name: string, value: real)
    requires forall id :: id in records ==> ValueIn(records[id].metrics, name) == value
    ensures MetricTotal(records, name) == Times(value, |records|)
    decreases |records|
  {
    if records != map[] {
      var id :| id in records;
      MetricSplits(records, name, id);
      UniformTotal(records - {id}, name, value);
      OneFewer(records, id);
    }
  }

  lemma OneFewer(records: map<string, Record>, id: string)
    requires id in records
    ensures |records| == |records - {id}| + 1
  {
    assert (records - {id}).Keys == records.Keys - {id};
  }

  lemma OneMore(value: real, n: nat)
    ensures value * n as real + value == value * (n + 1) as real
  {
  }

  /** If every record has the same value of a metric, that is its average. */
  lemma UniformAverage(records: map<string, Record>, name: string, value: real)
    requires records != map[]
    requires forall id :: id in records ==> name in records[id].metrics && records[id].metrics[name] == value
    ensures |records| > 0 && MetricTotal(records, name) / |records| as real == value
  {
    UniformTotal(records, name, value);
    TimesIsProduct(value, |records|);
    assert records.Keys != {};
  }

  ghost predicate Summed(records: map<string, Record>, totals: map<string, real>) {
    totals.Keys == MetricNames(records) && forall name :: name in totals ==> totals[name] == MetricTotal(records, name)
  }

  function Plus(totals: map<string, real>, metrics: map<string, real>): map<string, real> {
    map name | name in totals.Keys + metrics.Keys :: ValueIn(totals, name) + ValueIn(metrics, name)
  }

  lemma {:induction false} UnnamedIsZero(records: map<string, Record>, name: string)
    requires name !in MetricNames(records)
    ensures MetricTotal(records, name) == 0.0
    decreases |records|
  {
    if records != map[] {
      var id :| id in records;
      MetricSplits(records, name, id);
      assert name !in records[id].metrics && name !in MetricNames(records - {id});
      UnnamedIsZero(records - {id}, name);
    }
  }

  lemma SummedStep(records: map<string, Record>, totals: map<string, real>, id: string, r: Record)
    requires Summed(records, totals) && id !in records
    ensures Summed(records[id := r], Plus(totals, r.metrics))
  {
    var more := records[id := r];
    assert more - {id} == records;
    assert MetricNames(more) == MetricNames(records) + r.metrics.Keys by {
      assert forall x :: x in records ==> more[x] == records[x];
      assert more[id] == r;
    }
    forall name | name in Plus(totals, r.metrics)
      ensures Plus(totals, r.metrics)[name] == MetricTotal(more, name)
    {
      MetricSplits(more, name, id);
      if name !in totals {
        UnnamedIsZero(records, name);
      }
    }
  }

  method AddMetrics(totals: map<string, real>, metrics: map<string, real>) returns (sum: map<string, real>)
    ensures sum == Plus(totals, metrics)
  {
    sum := totals;
    var remaining := metrics.Keys;
    while remaining != {}
      invariant remaining <= metrics.Keys
      invariant sum.Keys == totals.Keys + (metrics.Keys - remaining)
      invariant forall name :: name in sum ==>
                  sum[name] == ValueIn(totals, name) + if name in remaining then 0.0 else ValueIn(metrics, name)
      decreases remaining
    {
      var name :| name in remaining;
      sum := sum[name := ValueIn(sum, name) + metrics[name]];
      remaining := remaining - {name};
    }
  }

  method Average(totals: map<string, real>, count: nat) returns (average: map<string, real>)
    requires count > 0
    ensures average == map name | name in totals :: totals[name] / count as real
  {
    average := totals;
    var remaining := totals.Keys;
    while remaining != {}
      invariant remaining <= totals.Keys == average.Keys
      invariant forall name :: name in totals ==>
                  average[name] == if name in remaining then totals[name] else totals[name] / count as real
      decreases remaining
    {
      var name :| name in remaining;
      average := average[name := average[name] / count as real];
      remaining := remaining - {name};
    }
  }

  /** The healthy count, the copied records and the summed metrics of one bucket. */
  method Summarise(bucket: map<string, Instance>)
    returns (healthy: nat, copies: map<string, Record>, totals: map<string, real>)
    ensures healthy == |Chosen(bucket, true)|
    ensures copies == map id | id in bucket :: bucket[id].Value()
    ensures Summed(copies, totals)
  {
    healthy, copies, totals := 0, map[], map[];
    var remaining := bucket.Keys;
    ghost var done: set<string> := {};
    while remaining != {}
      invariant done <= bucket.Keys && remaining <= bucket.Keys && done !! remaining
      invariant forall id :: id in bucket && id !in remaining ==> (id in done <==> bucket[id].status.Running?)
      invariant healthy == |done|
      invariant forall id :: id in copies <==> id in bucket && id !in remaining
      invariant forall id :: id in copies ==> copies[id] == bucket[id].Value()
      invariant Summed(copies, totals)
      decreases remaining
    {
      var id :| id in remaining;
      remaining := remaining - {id};
      if bucket[id].status.Running? {
        healthy := healthy + 1;
        done := done + {id};
      }
      SummedStep(copies, totals, id, bucket[id].Value());
      copies := copies[id := bucket[id].Value()];
      totals := AddMetrics(totals, bucket[id].metrics);
    }
    assert done == Chosen(bucket, true);
  }

  ghost function Chosen(bucket: map<string, Instance>, onlyHealthy: bool): set<string>
    reads bucket.Values
  {
    set id | id in bucket && (!onlyHealthy || bucket[id].status.Running?)
  }

  ghost predicate Collected(list: seq<Record>, bucket: map<string, Instance>, ids: set<string>)
    requires ids <= bucket.Keys
    reads bucket.Values
  {
    && |list| == |ids|
    && (forall i, j :: 0 <= i < j < |list| ==> list[i].id != list[j].id)
    && (forall id :: id in ids ==> bucket[id].Value() in list)
    && (forall r :: r in list ==> r.id in ids && r == bucket[r.id].Value())
  }

  // ---- The index by service ----

  type Table = map<string, Instance>

  /** The instances of one service. */
  ghost function Members(m: Table, service: string): Table {
    map id | id in m && m[id].service == service :: m[id]
  }

  /** The index that belongs to a table: a bucket for every service with an instance, and no other. */
  ghost function Index(m: Table): map<string, Table> {
    map s | s in (set id | id in m :: m[id].service) :: Members(m, s)
  }

  /** The agreement of the two levels: a bucket has an identifier exactly when the table has it with
      that service, both have the same object, and no bucket is empty. */
  ghost predicate Agrees(m: Table, index: map<string, Table>) {
    && (forall s, id :: s in index && id in index[s] ==> id in m && m[id].service == s && index[s][id] == m[id])
    && (forall id :: id in m ==> m[id].service in index && id in index[m[id].service])
    && (forall s :: s in index ==> index[s] != map[])
  }

  lemma IndexAgrees(m: Table)
    ensures Agrees(m, Index(m))
  {
  }

  lemma InIndex(m: Table, s: string)
    ensures s in Index(m) <==> exists id :: id in m && m[id].service == s
  {
  }

  /** The agreement determines the index, so the invariant of the registry says no more and no less. */
  lemma AgreementIsIndex(m: Table, index: map<string, Table>)
    requires Agrees(m, index)
    ensures index == Index(m)
  {
    forall s
      ensures s in index <==> s in Index(m)
      ensures s in index ==> index[s] == Members(m, s)
    {
      InIndex(m, s);
      if s in index {
        AgreeingBucket(m, index, s);
      }
    }
  }

  lemma AgreeingBucket(m: Table, index: map<string, Table>, s: string)
    requires Agrees(m, index) && s in index
    ensures index[s] == Members(m, s)
    ensures exists id :: id in m && m[id].service == s
  {
  }

  function Insert(index: map<string, Table>, i: Instance): map<string, Table> {
    var bucket: Table := if i.service in index then index[i.service] else map[];
    index[i.service := bucket[i.id := i]]
  }

  /** Removes an identifier, and its bucket if that becomes empty. */
  function Delete(index: map<string, Table>, service: string, id: string): map<string, Table> {
    if service !in index then index
    else
      var bucket := index[service] - {id};
      if |bucket| == 0 then index - {service} else index[service := bucket]
  }

  lemma InsertMembers(m: Table, i: Instance, s: string)
    requires i.id in m ==> m[i.id].service == i.service
    ensures Members(m[i.id := i], s) == if s == i.service then Members(m, s)[i.id := i] else Members(m, s)
  {
  }

  lemma InsertIndex(m: Table, i: Instance)
    requires i.id in m ==> m[i.id].service == i.service
    ensures Index(m[i.id := i]) == Insert(Index(m), i)
  {
    var m' := m[i.id := i];
    forall s
      ensures s in Index(m') <==> s in Insert(Index(m), i)
      ensures s in Index(m') ==> Members(m', s) == Insert(Index(m), i)[s]
    {
      InIndex(m, s);
      InIndex(m', s);
      InsertMembers(m, i, s);
      if id :| id in m && m[id].service == s {
        assert id in m' && m'[id].service == s;
      } else {
        assert Members(m, s) == map[];
      }
      assert i.id in m' && m'[i.id].service == i.service;
    }
  }

  lemma DeleteIndex(m: Table, id: string)
    requires id in m
    ensures Index(m - {id}) == Delete(Index(m), m[id].service, id)
  {
    var m', service := m - {id}, m[id].service;
    assert Members(m', service) == Members(m, service) - {id};
    forall s
      ensures s in Index(m') <==> s in Delete(Index(m), service, id)
      ensures s in Index(m') ==> Members(m', s) == Delete(Index(m), service, id)[s]
    {
      if s == service {
        assert s in Index(m);
        if s in Index(m') {
          var x :| x in m' && m'[x].service == s;
          assert x in Members(m', s);
        }
        if |Members(m', s)| > 0 {
          var x :| x in Members(m', s);
          assert x in m' && m'[x].service == s;
        }
      } else {
        if x :| x in m && m[x].service == s {
          assert x in m' && m'[x].service == s;
        }
        assert Members(m', s) == Members(m, s);
      }
    }
  }

  lemma Replaced(m: Table, i: Instance)
    ensures (m - {i.id})[i.id := i] == m[i.id := i]
  {
  }

  class InMemoryRegistry {
    var instances: map<string, Instance>
    var services: map<string, map<string, Instance>>
    var closed: bool
    /** The registry as a table of records. */
    ghost var table: map<string, Record>

    ghost predicate Valid()
      reads this, instances.Values
    {
      && services == Index(instances)
      && table.Keys == instances.Keys
      && forall id :: id in instances ==> instances[id].id == id && table[id] == instances[id].Value()
    }

    constructor ()
      ensures Valid() && table == map[] && !closed && instances == map[]
    {
      instances, services, closed, table := map[], map[], false, map[];
    }

    method Register(instance: Instance?) returns (outcome: Outcome)
      requires Valid()
      modifies this
      ensures Valid() && closed == old(closed)
      ensures outcome == if instance == null || instance.id == "" || instance.service == "" then InvalidInstance
                         else if closed then RegistryClosed
                         else if instance.id in old(instances) then AlreadyRegistered else Ok
      ensures instances == if outcome.Ok? then old(instances)[instance.id := instance] else old(instances)
      ensures table == if outcome.Ok? then old(table)[instance.id := instance.Value()] else old(table)
    {
      if instance == null || instance.id == "" || instance.service == "" {
        return InvalidInstance;
      }
      if closed {
        return RegistryClosed;
      }
      if instance.id in instances {
        return AlreadyRegistered;
      }
      Store(instance);
      return Ok;
    }

    /** Puts an instance into the table and into its service's bucket. */
    method Store(instance: Instance)
      requires Valid() && (instance.id in instances ==> instances[instance.id].service == instance.service)
      modifies this`instances, this`services, this`table
      ensures Valid() && instances == old(instances)[instance.id := instance]
      ensures table == old(table)[instance.id := instance.Value()]
    {
      InsertIndex(instances, instance);
      services := Insert(services, instance);
      instances := instances[instance.id := instance];
      table := table[instance.id := instance.Value()];
    }

    /** Replaces an instance by one of another service. */
    method Move(instance: Instance)
      requires Valid() && instance.id in instances
      modifies this`instances, this`services, this`table
      ensures Valid() && instances == old(instances)[instance.id := instance]
    {
      Drop(instance.id);
      Store(instance);
      Replaced(old(instances), instance);
    }

    /** Takes an identifier out of the table and out of its service's bucket. */
    method Drop(id: string)
      requires Valid() && id in instances
      modifies this`instances, this`services, this`table
      ensures Valid() && instances == old(instances) - {id} && table == old(table) - {id}
    {
      DeleteIndex(instances, id);
      services := Delete(services, instances[id].service, id);
      instances := instances - {id};
      table := table - {id};
    }

    method Deregister(id: string) returns (outcome: Outcome)
      requires Valid()
      modifies this
      ensures Valid() && closed == old(closed)
      ensures outcome == if closed then RegistryClosed else if id !in old(instances) then NotFound else Ok
      ensures instances == if outcome.Ok? then old(instances) - {id} else old(instances)
      ensures table == if outcome.Ok? then old(table) - {id} else old(table)
    {
      if closed {
        return RegistryClosed;
      }
      if id !in instances {
        return NotFound;
      }
      Drop(id);
      return Ok;
    }

    /** Replaces the record of an identifier, moving it to another service's bucket if need be. */
    method Update(instance: Instance?) returns (outcome: Outcome)
      requires Valid()
      modifies this
      ensures Valid() && closed == old(closed)
      ensures outcome == if instance == null || instance.id == "" then InvalidInstance
                         else if closed then RegistryClosed
                         else if instance.id !in old(instances) then NotFound else Ok
      ensures instances == if outcome.Ok? then old(instances)[instance.id := instance] else old(instances)
    {
      if instance == null || instance.id == "" {
        return InvalidInstance;
      }
      if closed {
        return RegistryClosed;
      }
      if instance.id !in instances {
        return NotFound;
      }
      var existing := instances[instance.id];
      if existing.service != instance.service {
        Move(instance);
      } else {
        Store(instance);
      }
      return Ok;
    }

    method UpdateStatus(id: string, status: Status, now: int) returns (outcome: Outcome)
      requires Valid()
      modifies this`table, instances.Values
      ensures Valid()
      ensures outcome == if closed then RegistryClosed else if id !in instances then NotFound else Ok
      ensures table == if outcome.Ok? then old(table)[id := old(table)[id].(status := status, checked := now)]
                       else old(table)
    {
      if closed {
        return RegistryClosed;
      }
      if id !in instances {
        return NotFound;
      }
      var instance := instances[id];
      instance.status := status;
      instance.lastHealthCheck := now;
      table := table[id := instance.Value()];
      return Ok;
    }

    method UpdateMetrics(id: string, metrics: map<string, real>, now: int) returns (outcome: Outcome)
      requires Valid()
      modifies this`table, instances.Values
      ensures Valid()
      ensures outcome == if closed then RegistryClosed else if id !in instances then NotFound else Ok
      ensures table == if outcome.Ok? then old(table)[id := old(table)[id].(metrics := metrics, checked := now)]
                       else old(table)
    {
      if closed {
        return RegistryClosed;
      }
      if id !in instances {
        return NotFound;
      }
      var instance := instances[id];
      instance.metrics := metrics;
      instance.lastHealthCheck := now;
      table := table[id := instance.Value()];
      return Ok;
    }

    method Get(id: string) returns (outcome: Outcome, record: Record)
      requires Valid()
      ensures outcome == if id in instances then Ok else NotFound
      ensures id in table ==> record == table[id]
    {
      if id !in instances {
        return NotFound, Record("", "", 0, Stopped, 0, map[]);
      }
      return Ok, instances[id].Value();
    }

    /** A bucket of the index holds exactly what filtering the whole table would give. */
    lemma BucketIsFilter(service: string)
      requires Valid()
      ensures Members(instances, service).Keys == OfService(table, service)
      ensures service in services ==> services[service] == Members(instances, service)
      ensures service !in services ==> OfService(table, service) == {} && HealthyOf(table, service) == {}
      ensures var bucket := Members(instances, service);
              Chosen(bucket, true) == HealthyOf(table, service)
    {
    }

    method GetByService(service: string) returns (list: seq<Record>)
      requires Valid()
      ensures Lists(list, table, OfService(table, service))
    {
      BucketIsFilter(service);
      if service !in services {
        return [];
      }
      list := Collect(services[service], false);
      assert Chosen(services[service], false) == services[service].Keys;
    }

    method GetHealthy(service: string) returns (list: seq<Record>)
      requires Valid()
      ensures Lists(list, table, HealthyOf(table, service))
    {
      BucketIsFilter(service);
      if service !in services {
        return [];
      }
      list := Collect(services[service], true);
    }

    method GetAll() returns (list: seq<Record>)
      requires Valid()
      ensures Lists(list, table, table.Keys)
    {
      list := Collect(instances, false);
      assert Chosen(instances, false) == instances.Keys == table.Keys;
    }

    method GetServiceState(service: string) returns (state: ServiceState)
      requires Valid()
      ensures state.current == |OfService(table, service)|
      ensures state.healthy == |HealthyOf(table, service)|
      ensures state.instances == map id | id in OfService(table, service) :: table[id]
      ensures state.metrics.Keys == MetricNames(state.instances)
      ensures forall name :: name in state.metrics ==>
                state.current > 0 && state.metrics[name] == MetricTotal(state.instances, name) / state.current as real
    {
      BucketIsFilter(service);
      if service !in services {
        return ServiceState(0, 0, map[], map[]);
      }
      var healthy, copies, totals := Summarise(services[service]);
      var current := |services[service]|;
      assert copies == map id | id in OfService(table, service) :: table[id];
      if current > 0 {
        totals := Average(totals, current);
      }
      return ServiceState(current, healthy, copies, totals);
    }

    method Close()
      requires Valid()
      modifies this`closed
      ensures Valid() && closed
    {
      closed := true;
    }
  }
}
